/** The global input listener (listener.py): eight hotkey slots, a pending recording that turns
    the next press from the armed input source into a slot's binding, and the triggers fired,
    in slot order, by every press that matches a binding. */
module HotkeyListener {
  import opened Strings

  const SlotCount := 8

  /** InputSource: the three kinds of input that can be bound. */
  datatype Source = Keyboard | Mouse | Gamepad

  /** The enum's value, which is also how a source is named in commands and payloads. */
  function SourceName(s: Source): string {
    match s
    case Keyboard => "keyboard"
    case Mouse => "mouse"
    case Gamepad => "gamepad"
  }

  /** InputSource(text): the source with that value, or None for the ValueError. */
  function ParseSource(text: string): (r: Option<Source>)
    ensures r.Some? ==> SourceName(r.value) == text
    ensures r.None? <==> text != "keyboard" && text != "mouse" && text != "gamepad"
  {
    if text == "keyboard" then Some(Keyboard)
    else if text == "mouse" then Some(Mouse)
    else if text == "gamepad" then Some(Gamepad)
    else None
  }

  /** Every source is read back from its own name. */
  lemma ParseSourceName(s: Source)
    ensures ParseSource(SourceName(s)) == Some(s)
  {
  }

  /** HotkeyEvent without its slot: what a slot is bound to. */
  datatype Binding = Binding(source: Source, value: string, gamepadName: Option<string>,
                             message: Option<string>, suppress: bool)

  /** One press as the handlers see it: its source, its formatted value and, for a gamepad,
      the name of the device it came from. */
  datatype Press = Press(source: Source, value: string, device: Option<string>)

  /** A binding fires for a press of the same source and value; a gamepad binding also needs
      no device name or the name of the pressing device. */
  predicate Matches(b: Binding, p: Press) {
    b.source == p.source && b.value == p.value &&
    (p.source == Gamepad ==> b.gamepadName.None? || b.gamepadName == p.device)
  }

  /** A trigger fired for a slot. */
  datatype Trigger = Trigger(slot: int, binding: Binding)

  /** A string that Python treats as true: present and not empty. */
  predicate Shown(s: Option<string>) {
    s.Some? && s.value != ""
  }

  /** The hotkey_triggered event published for a trigger. */
  function Payload(t: Trigger): (r: map<string, Value>)
    ensures r.Keys == {"event", "slot", "source", "value"}
                      + (if Shown(t.binding.gamepadName) then {"gamepad_name"} else {})
                      + (if Shown(t.binding.message) then {"message"} else {})
    ensures r["event"] == VStr("hotkey_triggered") && r["slot"] == VInt(t.slot)
    ensures r["source"] == VStr(SourceName(t.binding.source)) && r["value"] == VStr(t.binding.value)
    ensures "gamepad_name" in r ==> r["gamepad_name"] == VStr(t.binding.gamepadName.value)
    ensures "message" in r ==> r["message"] == VStr(t.binding.message.value)
  {
    var base := map["event" := VStr("hotkey_triggered"), "slot" := VInt(t.slot),
                     "source" := VStr(SourceName(t.binding.source)), "value" := VStr(t.binding.value)];
    var withPad := if Shown(t.binding.gamepadName) then base["gamepad_name" := VStr(t.binding.gamepadName.value)] else base;
    if Shown(t.binding.message) then withPad["message" := VStr(t.binding.message.value)] else withPad
  }

  /** Reading a payload back gives the slot, the source and the value of its trigger, and
      its device name and message whenever they were non-empty. */
  lemma PayloadReadsBack(t: Trigger)
    ensures var r := Payload(t);
            r["slot"].VInt? && r["slot"].i == t.slot &&
            r["source"].VStr? && ParseSource(r["source"].s) == Some(t.binding.source) &&
            r["value"] == VStr(t.binding.value) &&
            (Shown(t.binding.gamepadName) <==> "gamepad_name" in r) &&
            (Shown(t.binding.message) <==> "message" in r)
  {
    ParseSourceName(t.binding.source);
  }

  /** The triggers fired by a press among the first n slots, in slot order. */
  function Firing(hotkeys: seq<Option<Binding>>, p: Press, n: nat): (r: seq<Trigger>)
    requires n <= |hotkeys|
    ensures forall k :: 0 <= k < |r| ==>
              1 <= r[k].slot <= n && hotkeys[r[k].slot - 1] == Some(r[k].binding) && Matches(r[k].binding, p)
    ensures forall j, k :: 0 <= j < k < |r| ==> r[j].slot < r[k].slot
  {
    if n == 0 then []
    else
      var earlier := Firing(hotkeys, p, n - 1);
      match hotkeys[n - 1]
      case Some(b) => if Matches(b, p) then earlier + [Trigger(n, b)] else earlier
      case None => earlier
  }

  /** Every matching slot among the first n fires. */
  lemma {:induction false} FiringComplete(hotkeys: seq<Option<Binding>>, p: Press, n: nat, slot: int)
    requires 1 <= slot <= n <= |hotkeys|
    requires hotkeys[slot - 1].Some? && Matches(hotkeys[slot - 1].value, p)
    ensures exists k :: 0 <= k < |Firing(hotkeys, p, n)| && Firing(hotkeys, p, n)[k].slot == slot
  {
    var r := Firing(hotkeys, p, n);
    if slot == n {
      assert r[|r| - 1].slot == slot;
    } else {
      FiringComplete(hotkeys, p, n - 1, slot);
      var k :| 0 <= k < |Firing(hotkeys, p, n - 1)| && Firing(hotkeys, p, n - 1)[k].slot == slot;
      assert r[k] == Firing(hotkeys, p, n - 1)[k];
    }
  }

  /** Some fired trigger asks for the press to be suppressed. */
  predicate SuppressedBy(ts: seq<Trigger>) {
    exists k :: 0 <= k < |ts| && ts[k].binding.suppress
  }

  lemma SuppressedByAppend(ts: seq<Trigger>, t: Trigger)
    ensures SuppressedBy(ts + [t]) <==> SuppressedBy(ts) || t.binding.suppress
  {
    if t.binding.suppress {
      assert (ts + [t])[|ts|] == t;
    }
    if SuppressedBy(ts) {
      var k :| 0 <= k < |ts| && ts[k].binding.suppress;
      assert (ts + [t])[k] == ts[k];
    }
  }

  /** The slot holds a binding that matches the press and asks for suppression. */
  predicate SlotSuppresses(hotkeys: seq<Option<Binding>>, p: Press, slot: int) {
    1 <= slot <= |hotkeys| && hotkeys[slot - 1].Some? &&
    Matches(hotkeys[slot - 1].value, p) && hotkeys[slot - 1].value.suppress
  }

  /** A press is suppressed exactly when some slot bound to it asks for suppression. */
  lemma SuppressedIffSomeSlot(hotkeys: seq<Option<Binding>>, p: Press)
    ensures SuppressedBy(Firing(hotkeys, p, |hotkeys|)) <==> exists slot :: SlotSuppresses(hotkeys, p, slot)
  {
    if exists slot :: SlotSuppresses(hotkeys, p, slot) {
      var slot :| SlotSuppresses(hotkeys, p, slot);
      SlotSuppressesFires(hotkeys, p, slot);
    }
    if SuppressedBy(Firing(hotkeys, p, |hotkeys|)) {
      FiredSuppressFromSlot(hotkeys, p);
    }
  }

  lemma SlotSuppressesFires(hotkeys: seq<Option<Binding>>, p: Press, slot: int)
    requires SlotSuppresses(hotkeys, p, slot)
    ensures SuppressedBy(Firing(hotkeys, p, |hotkeys|))
  {
    var r := Firing(hotkeys, p, |hotkeys|);
    FiringComplete(hotkeys, p, |hotkeys|, slot);
    var k :| 0 <= k < |r| && r[k].slot == slot;
    assert r[k].binding.suppress;
  }

  lemma FiredSuppressFromSlot(hotkeys: seq<Option<Binding>>, p: Press)
    requires SuppressedBy(Firing(hotkeys, p, |hotkeys|))
    ensures exists slot :: SlotSuppresses(hotkeys, p, slot)
  {
    var r := Firing(hotkeys, p, |hotkeys|);
    var k :| 0 <= k < |r| && r[k].binding.suppress;
    assert SlotSuppresses(hotkeys, p, r[k].slot);
  }

  /** The slot table after clear_hotkey: the slot is emptied and every other slot kept. A
      number outside 1..8 only adds a dictionary entry that nothing reads, so the table of
      eight slots is kept as it is. */
  function Cleared(hotkeys: seq<Option<Binding>>, slot: int): (r: seq<Option<Binding>>)
    ensures |r| == |hotkeys|
    ensures 1 <= slot <= |hotkeys| ==> r[slot - 1].None?
    ensures forall i :: 0 <= i < |hotkeys| && i != slot - 1 ==> r[i] == hotkeys[i]
  {
    if 1 <= slot <= |hotkeys| then hotkeys[slot - 1 := None] else hotkeys
  }

  /** Clearing a slot twice is clearing it once. */
  lemma ClearIdempotent(hotkeys: seq<Option<Binding>>, slot: int)
    ensures Cleared(Cleared(hotkeys, slot), slot) == Cleared(hotkeys, slot)
  {
  }

  /** A cleared slot never fires. */
  lemma ClearedSlotNeverFires(hotkeys: seq<Option<Binding>>, slot: int, p: Press)
    requires 1 <= slot <= |hotkeys|
    ensures forall k :: 0 <= k < |Firing(Cleared(hotkeys, slot), p, |hotkeys|)| ==>
              Firing(Cleared(hotkeys, slot), p, |hotkeys|)[k].slot != slot
  {
  }

  /** _format_key: the key's character when it has a non-empty one, else its name without
      the "Key." prefix. */
  function FormatKey(keyChar: Option<string>, repr: string): string {
    if Shown(keyChar) then keyChar.value else ReplaceAll(repr, "Key.", "")
  }

  /** _format_button: the button's name without the "Button." prefix. */
  function FormatButton(repr: string): string {
    ReplaceAll(repr, "Button.", "")
  }

  /** A special key written Key.<name> is known by its bare name. */
  lemma FormatSpecialKey(name: string)
    requires !Occurs(name, "Key.")
    ensures FormatKey(None, "Key." + name) == name
  {
    assert ("Key." + name)[..4] == "Key.";
    assert ("Key." + name)[4..] == name;
    ReplaceAllAbsent(name, "Key.", "");
  }

  /** A button written Button.<name> is known by its bare name. */
  lemma FormatNamedButton(name: string)
    requires !Occurs(name, "Button.")
    ensures FormatButton("Button." + name) == name
  {
    assert ("Button." + name)[..7] == "Button.";
    assert ("Button." + name)[7..] == name;
    ReplaceAllAbsent(name, "Button.", "");
  }

  /** The value a scroll binds to: the vertical direction when there is vertical movement,
      otherwise the horizontal one. */
  function ScrollName(dx: int, dy: int): (r: string)
    ensures r == "scroll_up" <==> dy > 0
    ensures r == "scroll_down" <==> dy < 0
    ensures r == "scroll_right" <==> dy == 0 && dx > 0
    ensures r == "scroll_left" <==> dy == 0 && dx <= 0
  {
    if dy != 0 then (if dy > 0 then "scroll_up" else "scroll_down")
    else (if dx > 0 then "scroll_right" else "scroll_left")
  }

  /** A key as the keyboard listener delivers it: its character, if any, and its name. */
  datatype KeyEvent = KeyEvent(keyChar: Option<string>, repr: string)

  /** A gamepad event: its type, its state (0 is a release), its code and its device name. */
  datatype GamepadEvent = GamepadEvent(evType: string, state: int, code: string, device: Option<string>)

  /** A JSON command on the LISTENER topic. */
  datatype Message = Message(isEvent: bool, cmd: Option<string>, slot: Option<int>,
                             input: Option<string>, suppress: bool)

  function SlotError(slot: int): string {
    "Slot must be between 1 and 8, got " + IntToString(slot)
  }

  function SourceError(text: string): string {
    "'" + text + "' is not a valid InputSource"
  }

  const NoGamepad := "No gamepad available"

  class Listener {
    var hotkeys: seq<Option<Binding>>
    var recordingSlot: Option<int>
    var recordingSource: Option<Source>
    var recordingGamepadName: Option<string>
    var recordingMessage: Option<string>
    var recordingSuppress: bool
    var selectedGamepad: Option<string>
    var pressedKeys: set<string>
    var pressedButtons: set<string>
    var pressedGamepad: set<string>
    /** The triggers published, each as Payload(t), in order. */
    var emitted: seq<Trigger>

    ghost predicate Valid()
      reads this
    {
      |hotkeys| == SlotCount &&
      (recordingSlot.Some? ==> 1 <= recordingSlot.value <= SlotCount)
    }

    /** The next press from this source is being recorded. */
    predicate RecordingFor(source: Source)
      reads this
    {
      recordingSlot.Some? && recordingSlot.value != 0 && recordingSource == Some(source)
    }

    /** The listener starts with empty slots and nothing recorded; without a configured
        gamepad it selects the first one found, if any. */
    constructor (gamepadName: Option<string>, firstGamepad: Option<string>)
      ensures Valid()
      ensures hotkeys == seq(SlotCount, _ => None)
      ensures recordingSlot.None? && recordingSource.None? && recordingGamepadName.None?
      ensures recordingMessage.None? && !recordingSuppress
      ensures selectedGamepad == if gamepadName.Some? then gamepadName else firstGamepad
      ensures pressedKeys == {} && pressedButtons == {} && pressedGamepad == {} && emitted == []
    {
      hotkeys := seq(SlotCount, _ => None);
      recordingSlot := None;
      recordingSource := None;
      recordingGamepadName := None;
      recordingMessage := None;
      recordingSuppress := false;
      selectedGamepad := if gamepadName.Some? then gamepadName else firstGamepad;
      pressedKeys := {};
      pressedButtons := {};
      pressedGamepad := {};
      emitted := [];
    }

    /** register_hotkey: arms the recording for a slot, replacing any pending one; an invalid
        slot, an invalid source or a gamepad source with no gamepad is an error that changes
        nothing. */
    method RegisterHotkey(slot: int, source: string, gamepadName: Option<string>, message: Option<string>, suppress: bool)
      returns (error: Option<string>)
      requires Valid()
      modifies this
      ensures Valid()
      ensures !(1 <= slot <= SlotCount) ==> error == Some(SlotError(slot))
      ensures 1 <= slot <= SlotCount && ParseSource(source).None? ==> error == Some(SourceError(source))
      ensures 1 <= slot <= SlotCount && ParseSource(source) == Some(Gamepad) ==>
                (error.Some? <==> gamepadName.None? && old(selectedGamepad).None?)
      ensures error.Some? ==> error == Some(SlotError(slot)) || error == Some(SourceError(source)) || error == Some(NoGamepad)
      ensures error.None? <==> 1 <= slot <= SlotCount && ParseSource(source).Some? &&
                               (ParseSource(source) == Some(Gamepad) ==> gamepadName.Some? || old(selectedGamepad).Some?)
      ensures error.Some? ==> unchanged(this)
      ensures error.None? ==>
                recordingSlot == Some(slot) && recordingSource == ParseSource(source) &&
                recordingGamepadName == (if ParseSource(source) == Some(Gamepad) && gamepadName.None?
                                         then old(selectedGamepad) else gamepadName) &&
                recordingMessage == message && recordingSuppress == suppress
      ensures hotkeys == old(hotkeys) && selectedGamepad == old(selectedGamepad) && emitted == old(emitted)
      ensures pressedKeys == old(pressedKeys) && pressedButtons == old(pressedButtons) &&
              pressedGamepad == old(pressedGamepad)
    {
      if slot < 1 || slot > SlotCount {
        return Some(SlotError(slot));
      }
      var sourceEnum := ParseSource(source);
      if sourceEnum.None? {
        return Some(SourceError(source));
      }
      var name := gamepadName;
      if sourceEnum.value == Gamepad {
        if name.None? {
          name := selectedGamepad;
        }
        if name.None? {
          return Some(NoGamepad);
        }
      }
      recordingSlot := Some(slot);
      recordingSource := sourceEnum;
      recordingGamepadName := name;
      recordingMessage := message;
      recordingSuppress := suppress;
      return None;
    }

    /** clear_hotkey: empties the slot. */
    method ClearHotkey(slot: int)
      requires Valid()
      modifies this
      ensures Valid()
      ensures hotkeys == Cleared(old(hotkeys), slot)
      ensures recordingSlot == old(recordingSlot) && recordingSource == old(recordingSource)
      ensures recordingGamepadName == old(recordingGamepadName) && recordingMessage == old(recordingMessage)
      ensures recordingSuppress == old(recordingSuppress) && selectedGamepad == old(selectedGamepad)
      ensures pressedKeys == old(pressedKeys) && pressedButtons == old(pressedButtons)
      ensures pressedGamepad == old(pressedGamepad) && emitted == old(emitted)
    {
      if 1 <= slot <= SlotCount {
        hotkeys := hotkeys[slot - 1 := None];
      }
    }

    /** The loop over the slots: publishes a trigger for every matching slot, in slot order,
        and reports whether one of them asks for suppression. */
    method Fire(p: Press) returns (suppress: bool)
      requires Valid()
      modifies this
      ensures Valid()
      ensures emitted == old(emitted) + Firing(hotkeys, p, SlotCount)
      ensures suppress == SuppressedBy(Firing(hotkeys, p, SlotCount))
      ensures hotkeys == old(hotkeys) && recordingSlot == old(recordingSlot)
      ensures recordingSource == old(recordingSource) && recordingGamepadName == old(recordingGamepadName)
      ensures recordingMessage == old(recordingMessage) && recordingSuppress == old(recordingSuppress)
      ensures selectedGamepad == old(selectedGamepad) && pressedKeys == old(pressedKeys)
      ensures pressedButtons == old(pressedButtons) && pressedGamepad == old(pressedGamepad)
    {
      suppress := false;
      var slot := 1;
      while slot <= SlotCount
        invariant 1 <= slot <= SlotCount + 1 && |hotkeys| == SlotCount
        invariant emitted == old(emitted) + Firing(hotkeys, p, slot - 1)
        invariant suppress == SuppressedBy(Firing(hotkeys, p, slot - 1))
        invariant hotkeys == old(hotkeys) && recordingSlot == old(recordingSlot)
        invariant recordingSource == old(recordingSource) && recordingGamepadName == old(recordingGamepadName)
        invariant recordingMessage == old(recordingMessage) && recordingSuppress == old(recordingSuppress)
        invariant selectedGamepad == old(selectedGamepad) && pressedKeys == old(pressedKeys)
        invariant pressedButtons == old(pressedButtons) && pressedGamepad == old(pressedGamepad)
      {
        var hotkey := hotkeys[slot - 1];
        if hotkey.Some? && Matches(hotkey.value, p) {
          SuppressedByAppend(Firing(hotkeys, p, slot - 1), Trigger(slot, hotkey.value));
          emitted := emitted + [Trigger(slot, hotkey.value)];
          if hotkey.value.suppress {
            suppress := true;
          }
        }
        slot := slot + 1;
      }
    }

    /** The recorded press becomes the binding of the recording slot, and the recording is
        disarmed. */
    method StoreRecording(source: Source, value: string, device: Option<string>)
      requires Valid() && RecordingFor(source)
      modifies this
      ensures Valid()
      ensures hotkeys == old(hotkeys)[old(recordingSlot).value - 1 :=
                Some(Binding(source, value, device, old(recordingMessage), old(recordingSuppress)))]
      ensures recordingSlot.None? && recordingSource.None? && recordingMessage.None? && !recordingSuppress
      ensures recordingGamepadName == old(recordingGamepadName)
      ensures selectedGamepad == old(selectedGamepad) && emitted == old(emitted)
      ensures pressedKeys == old(pressedKeys) && pressedButtons == old(pressedButtons)
      ensures pressedGamepad == old(pressedGamepad)
    {
      var slot := recordingSlot.value;
      hotkeys := hotkeys[slot - 1 := Some(Binding(source, value, device, recordingMessage, recordingSuppress))];
      recordingSlot := None;
      recordingSource := None;
      recordingMessage := None;
      recordingSuppress := false;
    }

    /** _on_keyboard_press: records the key when a keyboard recording is armed; otherwise
        marks it pressed and fires every matching slot. The result is true when the key is to
        be suppressed. */
    method OnKeyboardPress(key: KeyEvent) returns (suppress: bool)
      requires Valid()
      modifies this
      ensures Valid()
      ensures old(RecordingFor(Keyboard)) ==>
                hotkeys == old(hotkeys)[old(recordingSlot).value - 1 :=
                  Some(Binding(Keyboard, FormatKey(key.keyChar, key.repr), None, old(recordingMessage), old(recordingSuppress)))] &&
                recordingSlot.None? && recordingSource.None? && recordingMessage.None? && !recordingSuppress &&
                pressedKeys == old(pressedKeys) && emitted == old(emitted) && !suppress
      ensures !old(RecordingFor(Keyboard)) ==>
                var p := Press(Keyboard, FormatKey(key.keyChar, key.repr), None);
                hotkeys == old(hotkeys) && recordingSlot == old(recordingSlot) &&
                recordingSource == old(recordingSource) && recordingMessage == old(recordingMessage) &&
                recordingSuppress == old(recordingSuppress) &&
                pressedKeys == old(pressedKeys) + {p.value} &&
                emitted == old(emitted) + Firing(old(hotkeys), p, SlotCount) &&
                suppress == SuppressedBy(Firing(old(hotkeys), p, SlotCount))
      ensures recordingGamepadName == old(recordingGamepadName) && selectedGamepad == old(selectedGamepad)
      ensures pressedButtons == old(pressedButtons) && pressedGamepad == old(pressedGamepad)
    {
      var keyName := FormatKey(key.keyChar, key.repr);
      if RecordingFor(Keyboard) {
        StoreRecording(Keyboard, keyName, None);
        return false;
      }
      pressedKeys := pressedKeys + {keyName};
      suppress := Fire(Press(Keyboard, keyName, None));
    }

    /** _on_keyboard_release: the key is no longer pressed. */
    method OnKeyboardRelease(key: KeyEvent)
      requires Valid()
      modifies this
      ensures Valid()
      ensures pressedKeys == old(pressedKeys) - {FormatKey(key.keyChar, key.repr)}
      ensures hotkeys == old(hotkeys) && recordingSlot == old(recordingSlot)
      ensures recordingSource == old(recordingSource) && recordingGamepadName == old(recordingGamepadName)
      ensures recordingMessage == old(recordingMessage) && recordingSuppress == old(recordingSuppress)
      ensures selectedGamepad == old(selectedGamepad) && emitted == old(emitted)
      ensures pressedButtons == old(pressedButtons) && pressedGamepad == old(pressedGamepad)
    {
      pressedKeys := pressedKeys - {FormatKey(key.keyChar, key.repr)};
    }

    /** _on_mouse_click: a release only unmarks the button; a press is recorded when a mouse
        recording is armed, and otherwise marked pressed and fired. */
    method OnMouseClick(button: string, pressed: bool) returns (suppress: bool)
      requires Valid()
      modifies this
      ensures Valid()
      ensures !pressed ==>
                pressedButtons == old(pressedButtons) - {FormatButton(button)} &&
                hotkeys == old(hotkeys) && recordingSlot == old(recordingSlot) &&
                recordingSource == old(recordingSource) && recordingMessage == old(recordingMessage) &&
                recordingSuppress == old(recordingSuppress) && emitted == old(emitted) && !suppress
      ensures pressed && old(RecordingFor(Mouse)) ==>
                hotkeys == old(hotkeys)[old(recordingSlot).value - 1 :=
                  Some(Binding(Mouse, FormatButton(button), None, old(recordingMessage), old(recordingSuppress)))] &&
                recordingSlot.None? && recordingSource.None? && recordingMessage.None? && !recordingSuppress &&
                pressedButtons == old(pressedButtons) && emitted == old(emitted) && !suppress
      ensures pressed && !old(RecordingFor(Mouse)) ==>
                var p := Press(Mouse, FormatButton(button), None);
                hotkeys == old(hotkeys) && recordingSlot == old(recordingSlot) &&
                recordingSource == old(recordingSource) && recordingMessage == old(recordingMessage) &&
                recordingSuppress == old(recordingSuppress) &&
                pressedButtons == old(pressedButtons) + {p.value} &&
                emitted == old(emitted) + Firing(old(hotkeys), p, SlotCount) &&
                suppress == SuppressedBy(Firing(old(hotkeys), p, SlotCount))
      ensures recordingGamepadName == old(recordingGamepadName) && selectedGamepad == old(selectedGamepad)
      ensures pressedKeys == old(pressedKeys) && pressedGamepad == old(pressedGamepad)
    {
      var buttonName := FormatButton(button);
      if !pressed {
        pressedButtons := pressedButtons - {buttonName};
        return false;
      }
      if RecordingFor(Mouse) {
        StoreRecording(Mouse, buttonName, None);
        return false;
      }
      pressedButtons := pressedButtons + {buttonName};
      suppress := Fire(Press(Mouse, buttonName, None));
    }

    /** _on_mouse_scroll: a scroll is a mouse press of its direction's name, recorded or
        fired like a click but never marked pressed. */
    method OnMouseScroll(dx: int, dy: int) returns (suppress: bool)
      requires Valid()
      modifies this
      ensures Valid()
      ensures old(RecordingFor(Mouse)) ==>
                hotkeys == old(hotkeys)[old(recordingSlot).value - 1 :=
                  Some(Binding(Mouse, ScrollName(dx, dy), None, old(recordingMessage), old(recordingSuppress)))] &&
                recordingSlot.None? && recordingSource.None? && recordingMessage.None? && !recordingSuppress &&
                emitted == old(emitted) && !suppress
      ensures !old(RecordingFor(Mouse)) ==>
                var p := Press(Mouse, ScrollName(dx, dy), None);
                hotkeys == old(hotkeys) && recordingSlot == old(recordingSlot) &&
                recordingSource == old(recordingSource) && recordingMessage == old(recordingMessage) &&
                recordingSuppress == old(recordingSuppress) &&
                emitted == old(emitted) + Firing(old(hotkeys), p, SlotCount) &&
                suppress == SuppressedBy(Firing(old(hotkeys), p, SlotCount))
      ensures recordingGamepadName == old(recordingGamepadName) && selectedGamepad == old(selectedGamepad)
      ensures pressedKeys == old(pressedKeys) && pressedButtons == old(pressedButtons)
      ensures pressedGamepad == old(pressedGamepad)
    {
      var scrollEvent := ScrollName(dx, dy);
      if RecordingFor(Mouse) {
        StoreRecording(Mouse, scrollEvent, None);
        return false;
      }
      suppress := Fire(Press(Mouse, scrollEvent, None));
    }

    /** The gamepad device is filtered out: a gamepad is selected and this is another one. */
    predicate OtherDevice(device: Option<string>)
      reads this
    {
      Shown(selectedGamepad) && device != selectedGamepad
    }

    /** One event of the gamepad polling loop. Only key and absolute-axis events count; a
        release unmarks the code; a press from another device than the selected one is
        ignored; otherwise the press is recorded when a gamepad recording is armed, and
        otherwise fires the matching slots if the code was not already pressed. */
    method OnGamepadEvent(ev: GamepadEvent)
      requires Valid()
      modifies this
      ensures Valid()
      ensures ev.evType != "Key" && ev.evType != "Absolute" ==> unchanged(this)
      ensures (ev.evType == "Key" || ev.evType == "Absolute") && ev.state == 0 ==>
                pressedGamepad == old(pressedGamepad) - {ev.code} &&
                hotkeys == old(hotkeys) && recordingSlot == old(recordingSlot) &&
                recordingSource == old(recordingSource) && recordingGamepadName == old(recordingGamepadName) &&
                recordingMessage == old(recordingMessage) && recordingSuppress == old(recordingSuppress) &&
                emitted == old(emitted)
      ensures (ev.evType == "Key" || ev.evType == "Absolute") && ev.state != 0 && old(OtherDevice(ev.device)) ==>
                unchanged(this)
      ensures (ev.evType == "Key" || ev.evType == "Absolute") && ev.state != 0 && !old(OtherDevice(ev.device)) &&
              old(RecordingFor(Gamepad)) ==>
                hotkeys == old(hotkeys)[old(recordingSlot).value - 1 :=
                  Some(Binding(Gamepad, ev.code, ev.device, old(recordingMessage), old(recordingSuppress)))] &&
                recordingSlot.None? && recordingSource.None? && recordingGamepadName.None? &&
                recordingMessage.None? && !recordingSuppress &&
                pressedGamepad == old(pressedGamepad) && emitted == old(emitted)
      ensures (ev.evType == "Key" || ev.evType == "Absolute") && ev.state != 0 && !old(OtherDevice(ev.device)) &&
              !old(RecordingFor(Gamepad)) ==>
                hotkeys == old(hotkeys) && recordingSlot == old(recordingSlot) &&
                recordingSource == old(recordingSource) && recordingGamepadName == old(recordingGamepadName) &&
                recordingMessage == old(recordingMessage) && recordingSuppress == old(recordingSuppress) &&
                pressedGamepad == old(pressedGamepad) + {ev.code} &&
                emitted == old(emitted) +
                  (if ev.code in old(pressedGamepad) then [] else Firing(old(hotkeys), Press(Gamepad, ev.code, ev.device), SlotCount))
      ensures selectedGamepad == old(selectedGamepad)
      ensures pressedKeys == old(pressedKeys) && pressedButtons == old(pressedButtons)
    {
      if ev.evType != "Key" && ev.evType != "Absolute" {
        return;
      }
      if ev.state == 0 {
        pressedGamepad := pressedGamepad - {ev.code};
        return;
      }
      if OtherDevice(ev.device) {
        return;
      }
      if RecordingFor(Gamepad) {
        StoreRecording(Gamepad, ev.code, ev.device);
        recordingGamepadName := None;
        return;
      }
      if ev.code !in pressedGamepad {
        pressedGamepad := pressedGamepad + {ev.code};
        var _ := Fire(Press(Gamepad, ev.code, ev.device));
      }
    }

    /** _on_mqtt_message: events are ignored; register arms a recording with the selected
        gamepad and no message (its errors are only logged); unregister clears the slot. Help
        and the other commands only publish replies, which this model leaves out. */
    method OnMessage(m: Message)
      requires Valid()
      modifies this
      ensures Valid()
      ensures m.isEvent || (m.cmd != Some("register") && m.cmd != Some("unregister")) ==> unchanged(this)
      ensures !m.isEvent && m.cmd == Some("unregister") ==>
                hotkeys == (if m.slot.Some? then Cleared(old(hotkeys), m.slot.value) else old(hotkeys)) &&
                recordingSlot == old(recordingSlot) && recordingSource == old(recordingSource) &&
                recordingGamepadName == old(recordingGamepadName) && recordingMessage == old(recordingMessage) &&
                recordingSuppress == old(recordingSuppress)
      ensures !m.isEvent && m.cmd == Some("register") ==>
                hotkeys == old(hotkeys) &&
                if m.slot.Some? && m.input.Some? && 1 <= m.slot.value <= SlotCount && ParseSource(m.input.value).Some? &&
                   (ParseSource(m.input.value) == Some(Gamepad) ==> old(selectedGamepad).Some?)
                then recordingSlot == m.slot && recordingSource == ParseSource(m.input.value) &&
                     recordingGamepadName == old(selectedGamepad) && recordingMessage.None? &&
                     recordingSuppress == m.suppress
                else recordingSlot == old(recordingSlot) && recordingSource == old(recordingSource) &&
                     recordingGamepadName == old(recordingGamepadName) &&
                     recordingMessage == old(recordingMessage) && recordingSuppress == old(recordingSuppress)
      ensures selectedGamepad == old(selectedGamepad) && emitted == old(emitted)
      ensures pressedKeys == old(pressedKeys) && pressedButtons == old(pressedButtons)
      ensures pressedGamepad == old(pressedGamepad)
    {
      if m.isEvent {
        return;
      }
      if m.cmd == Some("register") {
        if m.slot.Some? && m.input.Some? {
          var _ := RegisterHotkey(m.slot.value, m.input.value, selectedGamepad, None, m.suppress);
        }
      } else if m.cmd == Some("unregister") {
        if m.slot.Some? {
          ClearHotkey(m.slot.value);
        }
      }
    }
  }
}
