/** The playback engine (typer.py): the flags and credit counters that the TYPER commands and the
    STATE broadcasts set, and the playback thread that consumes the loaded tokens one step at a
    time, gated by those flags and by whether the target window has the focus. */
module Playback {
  import opened Strings
  import opened Tokens
  import opened Tokenizer

  /** The configuration the engine copies from the state store. Each is whatever JSON value
      the store holds; the engine uses them by truthiness, and play_status by equality. */
  datatype Settings = Settings(
    playStatus: Value, speed: Value, pauseOnNewLine: Value, pauseOnWindowNotFocused: Value,
    refocusWindowOnResume: Value, startPlaybackPaused: Value, autoHomeOnNewline: Value,
    controlOnNewline: Value, replaceQuadSpacesWithTab: Value)

  const DefaultSettings := Settings(VStr("stopped"), VInt(50), VBool(true), VBool(true), VBool(true),
                                    VBool(false), VBool(false), VBool(false), VBool(true))

  /** The configuration keys of the state store that the engine copies. */
  datatype SettingKey = PlayStatus | Speed | PauseOnNewLine | PauseOnWindowNotFocused | RefocusWindowOnResume
                      | StartPlaybackPaused | AutoHomeOnNewline | ControlOnNewline | ReplaceQuadSpacesWithTab

  /** The key's name in the state store. */
  function KeyName(k: SettingKey): string {
    match k
    case PlayStatus => "play_status"
    case Speed => "speed"
    case PauseOnNewLine => "pause_on_new_line"
    case PauseOnWindowNotFocused => "pause_on_window_not_focused"
    case RefocusWindowOnResume => "refocus_window_on_resume"
    case StartPlaybackPaused => "start_playback_paused"
    case AutoHomeOnNewline => "auto_home_on_newline"
    case ControlOnNewline => "control_on_newline"
    case ReplaceQuadSpacesWithTab => "replace_quad_spaces_with_tab"
  }

  /** The setting stored under a key. */
  function Setting(s: Settings, k: SettingKey): Value {
    match k
    case PlayStatus => s.playStatus
    case Speed => s.speed
    case PauseOnNewLine => s.pauseOnNewLine
    case PauseOnWindowNotFocused => s.pauseOnWindowNotFocused
    case RefocusWindowOnResume => s.refocusWindowOnResume
    case StartPlaybackPaused => s.startPlaybackPaused
    case AutoHomeOnNewline => s.autoHomeOnNewline
    case ControlOnNewline => s.controlOnNewline
    case ReplaceQuadSpacesWithTab => s.replaceQuadSpacesWithTab
  }

  /** What the engine publishes. */
  datatype Out =
    | StatusUpdate(status: string)      // STATE: {"cmd": "update_state", "key": "play_status", "value": status}
    | Reply(message: string)            // TYPER: {"result": "ok", "message": ...}
    | Error(error: string)              // TYPER: {"error": ...}
    | UiError(error: string)            // UI: {"error": ...}
    | LoadFailed(path: string)          // UI: {"error": "Failed to load file: ..."}
    | UiNotify(message: string)         // UI: a notification
    | PreviewReply(entries: seq<string>) // TYPER: {"result": preview}
    | NoData                            // TYPER: {"result": [], "warning": "No data loaded"}

  /** What the engine does to the keyboard and the mouse. */
  datatype Action = KeyDown(key: string) | KeyUp(key: string) | Scroll(direction: int) | Wait(seconds: nat)

  /** Where the playback thread is. Waiting is the loop over the tokens, before the token at
      index; InToken is the loop of type_token for that token; InText is the loop over the
      characters of a raw token, before the character at pos. The thread iterates over the
      token list it started with, whatever is loaded later. Aborted is a thread that died of
      an exception. */
  datatype Phase =
    | Idle
    | Starting
    | Waiting(tokens: seq<Token>, index: nat)
    | InToken(tokens: seq<Token>, index: nat)
    | InText(tokens: seq<Token>, index: nat, pos: nat)
    | Aborted

  datatype Engine = Engine(
    play: bool, paused: bool, playInSession: bool, resumed: nat,
    advanceToNewline: nat, advanceToken: nat,
    textTokens: seq<Token>, originalTextTokens: seq<Token>, preview: seq<string>,
    settings: Settings, stateValues: map<string, Value>,
    keyNames: set<string>, hasTarget: bool, windowTitle: Option<string>,
    phase: Phase, published: seq<Out>, actions: seq<Action>)

  ghost predicate PhaseInRange(p: Phase) {
    match p
    case Waiting(ts, i) => i <= |ts|
    case InToken(ts, i) => i < |ts|
    case InText(ts, i, c) => i < |ts| && ts[i].Raw? && c <= |ts[i].text|
    case _ => true
  }

  /** The engine's invariant: the thread's position is inside its token list, resumed is a
      flag, and the key names the engine uses directly are keyboard keys. */
  ghost predicate Valid(e: Engine) {
    PhaseInRange(e.phase) && e.resumed <= 1 && "enter" in e.keyNames && "ctrl" in e.keyNames && "home" in e.keyNames
  }

  /** A fresh engine; keyNames are the names of the keyboard's special keys. */
  function Init(keyNames: set<string>): (e: Engine) {
    Engine(false, false, false, 0, 0, 0, [], [], [], DefaultSettings, map[], keyNames, false, None, Idle, [], [])
  }

  // ---------------------------------------------------------------- the commands

  const NoDataLoaded := "No data loaded. Use load_file first."

  /** play: an error without tokens; otherwise playing, and a new playback thread unless one
      is in a session already, in which case the thread is told to resume. */
  function Play(e: Engine): (r: Engine) {
    if |e.textTokens| == 0 then e.(published := e.published + [Error(NoDataLoaded)])
    else if e.playInSession then
      e.(play := true, paused := false, resumed := 1, published := e.published + [StatusUpdate("playing")])
    else
      e.(play := true, paused := false, phase := Starting,
         published := e.published + [StatusUpdate("playing"), UiNotify("Playback will start in 5 seconds")])
  }

  /** _reset_to_beginning: the original tokens again, with a full preview. */
  function Reset(e: Engine): (r: Engine)
    ensures |e.originalTextTokens| > 0 ==>
              r.textTokens == e.originalTextTokens && |r.preview| == |e.originalTextTokens|
    ensures |e.originalTextTokens| == 0 ==> r == e
    ensures r == e.(textTokens := r.textTokens, preview := r.preview)
  {
    if |e.originalTextTokens| > 0 then e.(textTokens := e.originalTextTokens, preview := PreviewOf(e.originalTextTokens))
    else e
  }

  /** stop: out of the session, back to the first token. */
  function Stop(e: Engine): (r: Engine) {
    Reset(e.(play := false, paused := false, playInSession := false, resumed := 0))
      .(published := e.published + [StatusUpdate("stopped")])
  }

  function PauseWord(paused: bool): string {
    if paused then "paused" else "playing"
  }

  /** pause: toggles the pause. */
  function TogglePause(e: Engine): (r: Engine) {
    var paused := !e.paused;
    e.(paused := paused, published := e.published + [StatusUpdate(PauseWord(paused)), Reply("Playback " + PauseWord(paused))])
  }

  /** advance_newline: one more newline credit. */
  function AdvanceNewline(e: Engine): (r: Engine) {
    e.(advanceToNewline := e.advanceToNewline + 1, published := e.published + [Reply("Advancing to next newline")])
  }

  /** advance_token: one more token credit. */
  function AdvanceOneToken(e: Engine): (r: Engine) {
    e.(advanceToken := e.advanceToken + 1, published := e.published + [Reply("Advancing by one token")])
  }

  /** data: the preview, or a warning when there is none. */
  function Data(e: Engine): (r: Engine) {
    e.(published := e.published + [if |e.preview| > 0 then PreviewReply(e.preview) else NoData])
  }

  /** initialize_text_data: the file's tokens become both the tokens and the original tokens,
      with one preview entry per token. */
  function Loaded(e: Engine, content: string): (r: Engine) {
    var tokens := Tokenize(content, Truthy(e.settings.replaceQuadSpacesWithTab));
    e.(textTokens := tokens, originalTextTokens := tokens, preview := PreviewOf(tokens))
  }

  /** load_file: file is the path in the command, content the file's text, or None when it
      cannot be read. */
  function LoadFile(e: Engine, file: Option<string>, content: Option<string>): (r: Engine) {
    if file.None? || file.value == "" then e.(published := e.published + [UiError("Missing 'file' parameter")])
    else if content.None? then e.(published := e.published + [LoadFailed(file.value)])
    else Loaded(e, content.value).(published := e.published + [Reply("Loaded file: " + file.value)])
  }

  /** The cached value under key when there is one, else the current setting. */
  function Pick(cache: map<string, Value>, key: string, current: Value): Value {
    if key in cache then cache[key] else current
  }

  /** The settings after copying every one the cache holds. */
  function SyncedSettings(s: Settings, cache: map<string, Value>): (r: Settings)
    ensures forall k: SettingKey :: KeyName(k) in cache ==> Setting(r, k) == cache[KeyName(k)]
    ensures forall k: SettingKey :: KeyName(k) !in cache ==> Setting(r, k) == Setting(s, k)
  {
    Settings(
      Pick(cache, "play_status", s.playStatus), Pick(cache, "speed", s.speed),
      Pick(cache, "pause_on_new_line", s.pauseOnNewLine),
      Pick(cache, "pause_on_window_not_focused", s.pauseOnWindowNotFocused),
      Pick(cache, "refocus_window_on_resume", s.refocusWindowOnResume),
      Pick(cache, "start_playback_paused", s.startPlaybackPaused),
      Pick(cache, "auto_home_on_newline", s.autoHomeOnNewline),
      Pick(cache, "control_on_newline", s.controlOnNewline),
      Pick(cache, "replace_quad_spaces_with_tab", s.replaceQuadSpacesWithTab))
  }

  /** _sync_from_state: each setting present in the cache is copied, and a play_status
      present in the cache sets play and paused. */
  function Synced(e: Engine): (r: Engine)
    ensures r.settings == SyncedSettings(e.settings, e.stateValues)
    ensures "play_status" in e.stateValues ==>
              (r.play && !r.paused <==> e.stateValues["play_status"] == VStr("playing")) &&
              (r.play && r.paused <==> e.stateValues["play_status"] == VStr("paused")) &&
              (!r.play && !r.paused <==> e.stateValues["play_status"] != VStr("playing") &&
                                         e.stateValues["play_status"] != VStr("paused"))
    ensures "play_status" !in e.stateValues ==> r.play == e.play && r.paused == e.paused
    ensures r == e.(settings := r.settings, play := r.play, paused := r.paused)
  {
    var c := e.stateValues;
    var settings := SyncedSettings(e.settings, c);
    if "play_status" in c then
      var status := c["play_status"];
      if status == VStr("playing") then e.(settings := settings, play := true, paused := false)
      else if status == VStr("paused") then e.(settings := settings, play := true, paused := true)
      else e.(settings := settings, play := false, paused := false)
    else e.(settings := settings)
  }

  /** A state-data broadcast: merged into the cache, which is then synced. */
  function StateData(e: Engine, data: map<string, Value>): (r: Engine)
    ensures r.stateValues.Keys == e.stateValues.Keys + data.Keys
    ensures forall k :: k in data ==> r.stateValues[k] == data[k]
    ensures forall k :: k in e.stateValues && k !in data ==> r.stateValues[k] == e.stateValues[k]
  {
    Synced(e.(stateValues := e.stateValues + data))
  }

  // ---------------------------------------------------------------- the playback thread

  /** check_window_focused, with active telling whether the active window is the target. An
      unfocused target pauses playback when asked to and not paused or stopped already. */
  function CheckFocus(e: Engine, pauseIfNot: bool, active: bool): (r: (Engine, bool))
    ensures r.1 <==> !e.hasTarget || !Truthy(e.settings.pauseOnWindowNotFocused) || active
    ensures r.0.paused <==> e.paused || (!r.1 && pauseIfNot && e.settings.playStatus != VStr("stopped"))
    ensures r.0.published == e.published + (if r.0.paused && !e.paused then [StatusUpdate("paused")] else [])
    ensures r.0 == e.(paused := r.0.paused, published := r.0.published)
  {
    if !e.hasTarget || !Truthy(e.settings.pauseOnWindowNotFocused) then (e, true)
    else if !active then
      if pauseIfNot && !e.paused && e.settings.playStatus != VStr("stopped") then
        (e.(paused := true, published := e.published + [StatusUpdate("paused")]), false)
      else (e, false)
    else (e, true)
  }

  /** The end of type_text_tokens: out of play and out of the session. */
  function Finish(e: Engine): (r: Engine)
    ensures r.keyNames == e.keyNames && r.resumed == e.resumed && r.phase == Idle
  {
    e.(play := false, paused := false, playInSession := false, phase := Idle,
       published := e.published + [StatusUpdate("stopped")])
  }

  /** A newline credit is spent, if there is one, and playback pauses. */
  function Credit(e: Engine): (r: Engine)
    ensures r.paused && r.advanceToNewline == if e.advanceToNewline > 0 then e.advanceToNewline - 1 else 0
    ensures r == e.(paused := true, advanceToNewline := r.advanceToNewline, published := r.published)
  {
    e.(advanceToNewline := if e.advanceToNewline > 0 then e.advanceToNewline - 1 else 0, paused := true,
       published := e.published + [StatusUpdate("paused")])
  }

  /** Pressing every key in order. */
  function Presses(keys: seq<string>): (r: seq<Action>)
    ensures |r| == |keys| && forall i :: 0 <= i < |keys| ==> r[i] == KeyDown(keys[i])
  {
    if |keys| == 0 then [] else Presses(keys[..|keys| - 1]) + [KeyDown(keys[|keys| - 1])]
  }

  /** Releasing every key in order. */
  function Releases(keys: seq<string>): (r: seq<Action>)
    ensures |r| == |keys| && forall i :: 0 <= i < |keys| ==> r[i] == KeyUp(keys[i])
  {
    if |keys| == 0 then [] else Releases(keys[..|keys| - 1]) + [KeyUp(keys[|keys| - 1])]
  }

  /** Pressing and releasing a key n times. */
  function Taps(key: string, n: nat): (r: seq<Action>)
    ensures |r| == 2 * n
    ensures forall i :: 0 <= i < n ==> r[2 * i] == KeyDown(key) && r[2 * i + 1] == KeyUp(key)
  {
    if n == 0 then [] else Taps(key, n - 1) + [KeyDown(key), KeyUp(key)]
  }

  /** Scrolling n steps in a direction. */
  function Scrolls(n: nat, direction: int): (r: seq<Action>)
    ensures |r| == n && forall i :: 0 <= i < n ==> r[i] == Scroll(direction)
  {
    if n == 0 then [] else Scrolls(n - 1, direction) + [Scroll(direction)]
  }

  /** A single-key token typed with the window focused; None when the key is not a keyboard
      key, which raises in the playback thread. */
  function SingleKeyTyped(e: Engine, key: string): (r: Option<Engine>)
    ensures r.Some? ==> r.value.keyNames == e.keyNames && r.value.resumed == e.resumed && r.value.phase == e.phase
    ensures r.Some? ==> r.value.play == e.play && r.value.advanceToken == e.advanceToken && (e.paused ==> r.value.paused)
  {
    var pressed :=
      if key == "enter" && Truthy(e.settings.controlOnNewline) then
        Some(e.(actions := e.actions + [KeyDown("ctrl"), KeyDown("enter"), KeyUp("enter"), KeyUp("ctrl")]))
      else if key == "atpause" then Some(Credit(e))
      else if key !in e.keyNames then None
      else Some(e.(actions := e.actions + [KeyDown(key), KeyUp(key)]));
    match pressed
    case None => None
    case Some(e1) =>
      var e2 := if key == "enter" && Truthy(e1.settings.autoHomeOnNewline)
                then e1.(actions := e1.actions + [KeyDown("home"), KeyUp("home")]) else e1;
      if key == "enter" && (Truthy(e2.settings.pauseOnNewLine) || e2.advanceToNewline > 0) then Some(Credit(e2))
      else Some(e2)
  }

  /** A key the keyboard controller accepts: the name of a special key, or a single character.
      Any other string makes the press raise. */
  predicate Pressable(key: string, keyNames: set<string>) {
    key in keyNames || |key| == 1
  }

  /** How many keys of a chord, from the first, are pressed before one raises. */
  function PressableRun(keys: seq<string>, keyNames: set<string>): (n: nat)
    ensures n <= |keys|
    ensures forall j :: 0 <= j < n ==> Pressable(keys[j], keyNames)
    ensures n < |keys| ==> !Pressable(keys[n], keyNames)
  {
    if |keys| == 0 || !Pressable(keys[0], keyNames) then 0
    else 1 + PressableRun(keys[1..], keyNames)
  }

  /** What typing a token leaves: the engine, and whether the typing raised part way. */
  datatype Typing = Typing(engine: Engine, raised: bool)

  /** A token other than a raw string typed with the window focused. A chord presses its keys
      up to the first one the controller rejects and raises there, with those keys held; a
      single or repeated key that is not a keyboard key raises before anything is pressed. */
  function Typed(e: Engine, t: Token): (r: Typing)
    requires !t.Raw?
    ensures r.engine.keyNames == e.keyNames && r.engine.resumed == e.resumed && r.engine.phase == e.phase
    ensures r.engine.play == e.play && r.engine.advanceToken == e.advanceToken && (e.paused ==> r.engine.paused)
  {
    match t
    case MultiKeys(keys) =>
      var n := PressableRun(keys, e.keyNames);
      if n < |keys| then Typing(e.(actions := e.actions + Presses(keys[..n])), true)
      else Typing(e.(actions := e.actions + Presses(keys) + Releases(keys)), false)
    case SingleKey(key) =>
      (match SingleKeyTyped(e, key)
       case None => Typing(e, true)
       case Some(e1) => Typing(e1, false))
    case TimedPause(time) => Typing(e.(actions := e.actions + [Wait(time)]), false)
    case MouseScroll(count, direction) => Typing(e.(actions := e.actions + Scrolls(count, direction)), false)
    case RepeatedKey(key, count) =>
      if count > 0 && key !in e.keyNames then Typing(e, true)
      else Typing(e.(actions := e.actions + Taps(key, count)), false)
  }

  /** A token is done: a token credit is spent, and unless playback was stopped meanwhile the
      first preview entry is dropped and the thread moves to the next token. */
  function Complete(e: Engine, ts: seq<Token>, i: nat): (r: Engine)
    requires i < |ts|
    ensures r.keyNames == e.keyNames && r.resumed == e.resumed
    ensures r.phase == Idle || r.phase == Waiting(ts, i + 1)
  {
    var e1 := e.(advanceToken := if e.advanceToken > 0 then e.advanceToken - 1 else 0);
    if !e1.play then Finish(e1)
    else e1.(preview := if |e1.preview| > 0 then e1.preview[1..] else e1.preview, phase := Waiting(ts, i + 1))
  }

  /** _capture_active_window: captured is the title of the window active at that moment, if
      any; without one there is no target. */
  function Capture(e: Engine, captured: Option<string>): (r: Engine)
    ensures r.keyNames == e.keyNames && r.resumed == e.resumed && r.phase == e.phase
  {
    match captured
    case Some(title) => e.(hasTarget := true, windowTitle := Some(title))
    case None => e.(hasTarget := false)
  }

  /** The check _play_with_delay makes on the captured title: a target that is the program's
      own window stops playback. */
  function OwnWindowCheck(e: Engine, title: string): (r: Engine)
    ensures Occurs(title, "Ghost Coder") ==> !r.play && !r.paused && r.settings.playStatus == VStr("stopped")
    ensures !Occurs(title, "Ghost Coder") ==> r == e
  {
    if Occurs(title, "Ghost Coder") then
      e.(play := false, paused := false, settings := e.settings.(playStatus := VStr("stopped")),
         published := e.published +
           [StatusUpdate("stopped"), UiNotify("Focus window is Ghost Coder... no new window was given focus.")])
    else e
  }

  /** The start of type_text_tokens: the session opens, playback pauses when it is to start
      paused, and the loop over the loaded tokens begins. */
  function OpenSession(e: Engine): (r: Engine)
    ensures r.playInSession && r.phase == Waiting(e.textTokens, 0)
    ensures r.paused == (e.paused || Truthy(e.settings.startPlaybackPaused))
  {
    var e2 := e.(playInSession := true);
    var e3 := if Truthy(e2.settings.startPlaybackPaused)
              then e2.(paused := true, published := e2.published + [StatusUpdate("paused")]) else e2;
    e3.(phase := Waiting(e3.textTokens, 0))
  }

  /** The rest of _play_with_delay with a window title known. */
  function StartLoop(e: Engine, title: string): (r: Engine)
    ensures r.keyNames == e.keyNames && r.resumed == e.resumed && r.phase == Waiting(r.textTokens, 0)
    ensures r.playInSession && r.textTokens == e.textTokens
  {
    OpenSession(OwnWindowCheck(e, title))
  }

  /** _play_with_delay after its delay, up to the loop over the tokens. Without a window title
      the title check raises and the thread dies. */
  function Begin(e: Engine, captured: Option<string>): (r: Engine)
    requires Valid(e)
    ensures Valid(r)
  {
    var e1 := Capture(e, captured);
    match e1.windowTitle
    case None => e1.(phase := Aborted)
    case Some(title) => StartLoop(e1, title)
  }

  /** Going into type_token. */
  function Enter(e: Engine, ts: seq<Token>, i: nat): (r: Engine) {
    e.(resumed := 0, phase := InToken(ts, i))
  }

  /** One round of the loop over the tokens, with play set and tokens left: the thread goes
      into the token when playing, or when paused with a credit, and (unless it resumes or
      holds a credit) the target window has the focus. The focus check may pause playback, and
      a credit then lets the thread into the token in the same round. */
  function WaitStep(e: Engine, ts: seq<Token>, i: nat, active: bool): (r: Engine)
    requires i < |ts|
    ensures r.keyNames == e.keyNames && r.resumed <= e.resumed
    ensures r.phase == e.phase || r.phase == InToken(ts, i)
  {
    if e.paused && e.advanceToNewline == 0 && e.advanceToken == 0 then e
    else if e.resumed > 0 then Enter(e, ts, i)
    else if !e.paused then
      var f := CheckFocus(e, true, active);
      if f.1 || (f.0.paused && (f.0.advanceToNewline > 0 || f.0.advanceToken > 0)) then Enter(f.0, ts, i)
      else f.0
    else Enter(e, ts, i)
  }

  /** The thread in the loop over the tokens: it finishes when the tokens are done or play was
      cleared, and otherwise takes one round. */
  function WaitingStep(e: Engine, ts: seq<Token>, i: nat, active: bool): (r: Engine)
    requires Valid(e) && e.phase == Waiting(ts, i)
    ensures Valid(r)
  {
    if i == |ts| || !e.play then Finish(e) else WaitStep(e, ts, i, active)
  }

  /** One round of type_token's loop for a token other than a raw string. */
  function KeyStep(e: Engine, ts: seq<Token>, i: nat, active: bool): (r: Engine)
    requires i < |ts| && !ts[i].Raw?
    requires Valid(e)
    ensures Valid(r)
  {
    var f := CheckFocus(e, true, active);
    if !f.1 then f.0
    else
      var ty := Typed(f.0, ts[i]);
      if ty.raised then ty.engine.(phase := Aborted) else Complete(ty.engine, ts, i)
  }

  /** The thread in type_token: a cleared play ends the playback; a raw string goes on to its
      characters; any other token takes one round. */
  function InTokenStep(e: Engine, ts: seq<Token>, i: nat, active: bool): (r: Engine)
    requires Valid(e) && e.phase == InToken(ts, i)
    ensures Valid(r)
  {
    if !e.play then Finish(e)
    else if ts[i].Raw? then e.(phase := InText(ts, i, 0))
    else KeyStep(e, ts, i, active)
  }

  /** One round of the loop over a raw token's characters: the character is typed when a
      resume is pending, when playing with the window focused, or when paused with a credit. */
  function TextStep(e: Engine, ts: seq<Token>, i: nat, c: nat, active: bool): (r: Engine)
    requires Valid(e) && e.phase == InText(ts, i, c)
    ensures Valid(r)
  {
    var s := ts[i].text;
    if c == |s| then Complete(e, ts, i)
    else
      var typeChar := (e1: Engine) =>
        e1.(resumed := 0, actions := e1.actions + [KeyDown([s[c]]), KeyUp([s[c]])], phase := InText(ts, i, c + 1));
      if e.play && e.resumed > 0 then typeChar(e)
      else
        var f := CheckFocus(e, true, active);
        var e1 := f.0;
        if (f.1 && !e1.paused) || (e1.play && e1.paused && (e1.advanceToNewline > 0 || e1.advanceToken > 0))
        then typeChar(e1) else e1
  }

  /** One step of the playback thread. active tells whether the target window is active and
      captured is the active window's title when the thread captures it. */
  function Step(e: Engine, active: bool, captured: Option<string>): (r: Engine)
    requires Valid(e)
    ensures Valid(r)
  {
    match e.phase
    case Idle => e
    case Aborted => e
    case Starting => Begin(e, captured)
    case Waiting(ts, i) => WaitingStep(e, ts, i, active)
    case InToken(ts, i) => InTokenStep(e, ts, i, active)
    case InText(ts, i, c) => TextStep(e, ts, i, c, active)
  }

  // ---------------------------------------------------------------- properties

  /** play without tokens only reports the error. */
  lemma PlayWithoutTokens(e: Engine)
    requires |e.textTokens| == 0
    ensures Play(e) == e.(published := e.published + [Error(NoDataLoaded)])
  {
  }

  /** play with tokens: playing and not paused; in a session it resumes the running thread,
      otherwise it starts one. */
  lemma PlayStarts(e: Engine)
    requires |e.textTokens| > 0
    ensures var r := Play(e);
            r.play && !r.paused && r.published[|e.published|] == StatusUpdate("playing") &&
            (e.playInSession ==> r.resumed == 1 && r.phase == e.phase) &&
            (!e.playInSession ==> r.phase == Starting)
  {
  }

  /** stop: out of play and session, resume cleared, the original tokens back. */
  lemma StopResets(e: Engine)
    ensures var r := Stop(e);
            !r.play && !r.paused && !r.playInSession && r.resumed == 0 &&
            r.published == e.published + [StatusUpdate("stopped")] &&
            (|e.originalTextTokens| > 0 ==> r.textTokens == e.originalTextTokens && r.preview == PreviewOf(e.originalTextTokens)) &&
            (|e.originalTextTokens| == 0 ==> r.textTokens == e.textTokens && r.preview == e.preview)
  {
  }

  /** One pause flips the pause flag and two restore it, and each publishes "paused" exactly when it pauses. */
  lemma PauseTwice(e: Engine)
    ensures TogglePause(e).paused == !e.paused
    ensures TogglePause(TogglePause(e)).paused == e.paused
    ensures TogglePause(e).published[|e.published|] == StatusUpdate(if TogglePause(e).paused then "paused" else "playing")
    ensures TogglePause(TogglePause(e)) == e.(published := TogglePause(TogglePause(e)).published)
  {
  }

  /** Each advance command adds one credit of its own kind and changes nothing else. */
  lemma AdvanceCredits(e: Engine)
    ensures AdvanceNewline(e) == e.(advanceToNewline := e.advanceToNewline + 1, published := AdvanceNewline(e).published)
    ensures AdvanceOneToken(e) == e.(advanceToken := e.advanceToken + 1, published := AdvanceOneToken(e).published)
  {
  }

  /** Loading a file sets one preview entry per token and keeps a copy of the tokens. */
  lemma LoadedPreview(e: Engine, content: string)
    ensures var r := Loaded(e, content);
            r.originalTextTokens == r.textTokens && |r.preview| == |r.textTokens| &&
            (forall k :: 0 <= k < |r.textTokens| ==> r.preview[k] == PreviewEntry(r.textTokens[k]))
  {
  }

  /** A pause token spends a newline credit if there is one and always pauses. */
  lemma AtPauseCredit(e: Engine)
    ensures SingleKeyTyped(e, "atpause").Some?
    ensures var r := SingleKeyTyped(e, "atpause").value;
            r.paused && r.advanceToNewline == (if e.advanceToNewline > 0 then e.advanceToNewline - 1 else 0) &&
            r.advanceToken == e.advanceToken && r.actions == e.actions
  {
  }

  /** An enter token pauses when pausing on newlines or holding a newline credit, spending the
      credit if there is one; otherwise it leaves the pause flag and the credit alone. */
  lemma {:induction false} EnterCredit(e: Engine)
    requires "enter" in e.keyNames
    ensures SingleKeyTyped(e, "enter").Some?
    ensures var r := SingleKeyTyped(e, "enter").value;
            (Truthy(e.settings.pauseOnNewLine) || e.advanceToNewline > 0 ==>
               r.paused && r.advanceToNewline == (if e.advanceToNewline > 0 then e.advanceToNewline - 1 else 0)) &&
            (!Truthy(e.settings.pauseOnNewLine) && e.advanceToNewline == 0 ==>
               r.paused == e.paused && r.advanceToNewline == 0) &&
            r.advanceToken == e.advanceToken
  {
    var e1 := if Truthy(e.settings.controlOnNewline)
              then e.(actions := e.actions + [KeyDown("ctrl"), KeyDown("enter"), KeyUp("enter"), KeyUp("ctrl")])
              else e.(actions := e.actions + [KeyDown("enter"), KeyUp("enter")]);
    var e2 := if Truthy(e1.settings.autoHomeOnNewline)
              then e1.(actions := e1.actions + [KeyDown("home"), KeyUp("home")]) else e1;
    assert e2.paused == e.paused && e2.advanceToNewline == e.advanceToNewline;
    assert e2.advanceToken == e.advanceToken && e2.settings == e.settings;
    assert SingleKeyTyped(e, "enter") ==
             Some(if Truthy(e2.settings.pauseOnNewLine) || e2.advanceToNewline > 0 then Credit(e2) else e2);
  }

  /** A finished token spends one token credit if there is one; while playing it drops exactly
      one preview entry and moves on, and once stopped the thread finishes. */
  lemma CompleteSpendsCredit(e: Engine, ts: seq<Token>, i: nat)
    requires i < |ts|
    ensures var r := Complete(e, ts, i);
            r.advanceToken == (if e.advanceToken > 0 then e.advanceToken - 1 else 0) &&
            (e.play && |e.preview| > 0 ==> r.preview == e.preview[1..] && r.phase == Waiting(ts, i + 1)) &&
            (!e.play ==> !r.play && !r.paused && !r.playInSession && r.phase == Idle &&
                         r.published == e.published + [StatusUpdate("stopped")])
  {
  }

  /** When the loop over the tokens ends, with every token done or with play cleared, the
      thread ends out of play, pause and session, and publishes "stopped". */
  lemma LoopEndStops(e: Engine, active: bool, captured: Option<string>)
    requires Valid(e) && e.phase.Waiting? && (e.phase.index == |e.phase.tokens| || !e.play)
    ensures var r := Step(e, active, captured);
            !r.play && !r.paused && !r.playInSession && r.phase == Idle &&
            r.published == e.published + [StatusUpdate("stopped")]
  {
  }

  /** Paused without credit, the thread waits without changing anything. */
  lemma PausedWithoutCreditWaits(e: Engine, active: bool, captured: Option<string>)
    requires Valid(e) && e.phase.Waiting? && e.phase.index < |e.phase.tokens|
    requires e.play && e.paused && e.advanceToNewline == 0 && e.advanceToken == 0
    ensures Step(e, active, captured) == e
  {
  }

  /** The target has the focus as check_window_focused sees it: there is none, focus is not
      watched, or it is the active window. */
  ghost predicate Focused(e: Engine, active: bool) {
    !e.hasTarget || !Truthy(e.settings.pauseOnWindowNotFocused) || active
  }

  /** Paused with a token credit, the thread goes into the next token regardless of the
      window. A token other than a raw string is then typed when the target has the focus:
      unless the typing raises, the credit is spent and the thread moves on to the next token,
      still paused; a raise ends the thread; without the focus nothing changes. */
  lemma {:induction false} TokenCreditTypesOne(e: Engine, ts: seq<Token>, i: nat, active: bool, captured: Option<string>)
    requires Valid(e) && e.phase == Waiting(ts, i) && i < |ts| && !ts[i].Raw?
    requires e.play && e.paused && e.advanceToken == 1
    ensures var r1 := Step(e, active, captured);
            r1 == e.(resumed := 0, phase := InToken(ts, i)) &&
            var r2 := Step(r1, active, captured);
            var ty := Typed(r1, ts[i]);
            (Focused(e, active) && !ty.raised ==>
               r2.phase == Waiting(ts, i + 1) && r2.paused && r2.advanceToken == 0 &&
               r2.actions == ty.engine.actions) &&
            (Focused(e, active) && ty.raised ==> r2 == ty.engine.(phase := Aborted)) &&
            (!Focused(e, active) ==> r2 == r1)
  {
    var r1 := Step(e, active, captured);
    assert r1 == Enter(e, ts, i);
    var f := CheckFocus(r1, true, active);
    assert f.0 == r1;
    assert Step(r1, active, captured) == KeyStep(r1, ts, i, active);
  }

  /** Paused with a token credit before a non-empty raw string, the thread goes into it and
      types its first character whether or not the target has the focus; the credit is kept
      for the rest of the string. */
  lemma {:induction false} TokenCreditTypesRawChar(e: Engine, ts: seq<Token>, i: nat, active: bool, captured: Option<string>)
    requires Valid(e) && e.phase == Waiting(ts, i) && i < |ts| && ts[i].Raw? && |ts[i].text| > 0
    requires e.play && e.paused && e.advanceToken == 1
    ensures var r := Step(Step(Step(e, active, captured), active, captured), active, captured);
            r.phase == InText(ts, i, 1) && r.paused && r.advanceToken == 1 &&
            r.actions == e.actions + [KeyDown([ts[i].text[0]]), KeyUp([ts[i].text[0]])]
  {
    var r1 := Step(e, active, captured);
    assert r1 == Enter(e, ts, i);
    var r2 := Step(r1, active, captured);
    assert r2 == r1.(phase := InText(ts, i, 0));
    CreditTypesChar(r2, ts, i, 0, active);
  }

  /** Paused with a credit, the next character of a raw string is typed even when the target
      has not the focus. */
  lemma CreditTypesChar(e: Engine, ts: seq<Token>, i: nat, c: nat, active: bool)
    requires Valid(e) && e.phase == InText(ts, i, c) && c < |ts[i].text|
    requires e.play && e.paused && (e.advanceToNewline > 0 || e.advanceToken > 0)
    ensures TextStep(e, ts, i, c, active) ==
              e.(resumed := 0, actions := e.actions + [KeyDown([ts[i].text[c]]), KeyUp([ts[i].text[c]])],
                 phase := InText(ts, i, c + 1))
  {
  }

  /** After stop, a raw string the thread is in goes on typing: with the target focused, or
      with none, its next character is typed. */
  lemma StoppedTextKeepsTyping(e: Engine, ts: seq<Token>, i: nat, c: nat, active: bool)
    requires Valid(e) && e.phase == InText(ts, i, c) && c < |ts[i].text| && Focused(e, active)
    ensures var r := TextStep(Stop(e), ts, i, c, active);
            !r.play && r.phase == InText(ts, i, c + 1) &&
            r.actions == e.actions + [KeyDown([ts[i].text[c]]), KeyUp([ts[i].text[c]])]
  {
    var s := Stop(e);
    assert s.phase == e.phase && s.actions == e.actions && s.hasTarget == e.hasTarget && s.settings == e.settings;
    assert !s.play && !s.paused && s.resumed == 0;
  }

  /** Not paused and without a pending resume, a raw string's character waits while the
      target has not the focus: playback pauses unless the status is "stopped", and the
      character is typed only when that pause meets a credit while playing. */
  lemma UnfocusedTextPauses(e: Engine, ts: seq<Token>, i: nat, c: nat, active: bool)
    requires Valid(e) && e.phase == InText(ts, i, c) && c < |ts[i].text|
    requires !e.paused && e.resumed == 0 && !Focused(e, active)
    ensures var r := TextStep(e, ts, i, c, active);
            (r.paused <==> e.settings.playStatus != VStr("stopped")) &&
            var typed := e.play && r.paused && (e.advanceToNewline > 0 || e.advanceToken > 0);
            (typed ==> r.phase == InText(ts, i, c + 1) &&
                       r.actions == e.actions + [KeyDown([ts[i].text[c]]), KeyUp([ts[i].text[c]])]) &&
            (!typed ==> r.phase == e.phase && r.actions == e.actions)
  {
  }

  /** Playing and not paused, with the target not focused and no resume pending, the loop
      over the tokens pauses playback (unless the status is "stopped") and types nothing. It
      goes into the token in that same round exactly when the pause meets a credit, and
      otherwise stays before the same token. */
  lemma UnfocusedWaitPauses(e: Engine, active: bool, captured: Option<string>)
    requires Valid(e) && e.phase.Waiting? && e.phase.index < |e.phase.tokens|
    requires e.play && !e.paused && e.resumed == 0 && !Focused(e, active)
    ensures var r := Step(e, active, captured);
            r.actions == e.actions &&
            (r.paused <==> e.settings.playStatus != VStr("stopped")) &&
            var entered := r.paused && (e.advanceToNewline > 0 || e.advanceToken > 0);
            (entered ==> r.phase == InToken(e.phase.tokens, e.phase.index)) &&
            (!entered ==> r.phase == e.phase)
  {
  }

  /** A chord whose keys the controller all accepts is pressed in order and released in order.
      Otherwise the typing raises at the first key it rejects, with the keys before it pressed
      and left held. */
  lemma ChordTyped(e: Engine, keys: seq<string>)
    ensures var r := Typed(e, MultiKeys(keys));
            (r.raised <==> exists j :: 0 <= j < |keys| && !Pressable(keys[j], e.keyNames)) &&
            (!r.raised ==> r.engine == e.(actions := e.actions + Presses(keys) + Releases(keys))) &&
            (r.raised ==> exists n :: 0 <= n < |keys| && !Pressable(keys[n], e.keyNames) &&
                            (forall j :: 0 <= j < n ==> Pressable(keys[j], e.keyNames)) &&
                            r.engine == e.(actions := e.actions + Presses(keys[..n])))
  {
    var n := PressableRun(keys, e.keyNames);
    if n < |keys| {
      assert !Pressable(keys[n], e.keyNames);
    }
  }

  /** A token whose typing raises ends the thread with the keys pressed so far still held,
      and leaves play and the session set: a later play only signals the dead thread. */
  lemma RaiseAbortsInSession(e: Engine, ts: seq<Token>, i: nat, active: bool, captured: Option<string>)
    requires Valid(e) && e.phase == InToken(ts, i) && !ts[i].Raw? && e.play && Focused(e, active)
    requires Typed(e, ts[i]).raised
    ensures var r := Step(e, active, captured);
            r.phase == Aborted && r.play && r.playInSession == e.playInSession &&
            r.actions == Typed(e, ts[i]).engine.actions &&
            Step(r, active, captured) == r
    ensures var r := Step(e, active, captured);
            e.playInSession && |r.textTokens| > 0 ==> Play(r).phase == Aborted
  {
    var f := CheckFocus(e, true, active);
    assert f.0 == e;
  }

  /** <<ctrl+>> is the chord of ctrl and the empty key: ctrl is pressed, and the press of the
      empty key raises with ctrl held. */
  lemma ChordWithEmptyKeyRaises(e: Engine)
    requires "ctrl" in e.keyNames && "" !in e.keyNames
    ensures Typed(e, MultiKeys(["ctrl", ""])) == Typing(e.(actions := e.actions + [KeyDown("ctrl")]), true)
  {
    assert PressableRun(["ctrl", ""], e.keyNames) == 1;
    assert ["ctrl", ""][..1] == ["ctrl"];
  }

  /** Stopping and playing again starts a new thread that types the original tokens from the
      first one, with the full preview. */
  lemma {:induction false} StopThenPlayRestarts(e: Engine, active: bool, title: string)
    requires Valid(e) && |e.originalTextTokens| > 0
    requires !Occurs(title, "Ghost Coder") && !Truthy(e.settings.startPlaybackPaused)
    ensures var r := Step(Play(Stop(e)), active, Some(title));
            r.phase == Waiting(e.originalTextTokens, 0) && r.preview == PreviewOf(e.originalTextTokens) &&
            r.play && !r.paused && r.playInSession
  {
    var s := Stop(e);
    assert s.textTokens == e.originalTextTokens && !s.playInSession;
    var p := Play(s);
    assert p.phase == Starting && p.textTokens == e.originalTextTokens && p.preview == PreviewOf(e.originalTextTokens);
    assert Step(p, active, Some(title)) == Begin(p, Some(title));
  }

  // ---------------------------------------------------------------- the process

  /** A TYPER command. */
  datatype Command = LoadFileCmd(file: Option<string>) | DataCmd | PlayCmd | StopCmd | PauseCmd
                   | AdvanceNewlineCmd | AdvanceTokenCmd | UnknownCmd

  /** The Typer object. Its fields are the engine's; Snapshot reads them as one value. */
  class Typer {
    var play: bool
    var paused: bool
    var playInSession: bool
    var resumed: nat
    var advanceToNewline: nat
    var advanceToken: nat
    var textTokens: seq<Token>
    var originalTextTokens: seq<Token>
    var preview: seq<string>
    var settings: Settings
    var stateValues: map<string, Value>
    var keyNames: set<string>
    var hasTarget: bool
    var windowTitle: Option<string>
    var phase: Phase
    var published: seq<Out>
    var actions: seq<Action>

    function Snapshot(): Engine
      reads this
    {
      Engine(play, paused, playInSession, resumed, advanceToNewline, advanceToken,
             textTokens, originalTextTokens, preview, settings, stateValues,
             keyNames, hasTarget, windowTitle, phase, published, actions)
    }

    constructor (names: set<string>)
      ensures Snapshot() == Init(names)
    {
      play, paused, playInSession, resumed := false, false, false, 0;
      advanceToNewline, advanceToken := 0, 0;
      textTokens, originalTextTokens, preview := [], [], [];
      settings, stateValues := DefaultSettings, map[];
      keyNames, hasTarget, windowTitle := names, false, None;
      phase, published, actions := Idle, [], [];
    }

    method HandlePlay()
      modifies this
      ensures Snapshot() == Play(old(Snapshot()))
    {
      if |textTokens| == 0 {
        published := published + [Error(NoDataLoaded)];
        return;
      }
      if playInSession {
        play := true;
        paused := false;
        resumed := 1;
        published := published + [StatusUpdate("playing")];
      } else {
        play := true;
        paused := false;
        published := published + [StatusUpdate("playing")];
        phase := Starting;
        published := published + [UiNotify("Playback will start in 5 seconds")];
      }
    }

    /** The list comprehension that builds the preview. */
    static method BuildPreview(ts: seq<Token>) returns (p: seq<string>)
      ensures p == PreviewOf(ts)
    {
      p := [];
      var i := 0;
      while i < |ts|
        invariant 0 <= i <= |ts|
        invariant p == PreviewOf(ts[..i])
      {
        assert ts[..i + 1] == ts[..i] + [ts[i]];
        PreviewOfAppend(ts[..i], ts[i]);
        p := p + [PreviewEntry(ts[i])];
        i := i + 1;
      }
      assert ts[..i] == ts;
    }

    method ResetToBeginning()
      modifies this
      ensures Snapshot() == Reset(old(Snapshot()))
    {
      if |originalTextTokens| > 0 {
        textTokens := originalTextTokens;
        preview := BuildPreview(originalTextTokens);
      }
    }

    method HandleStop()
      modifies this
      ensures Snapshot() == Stop(old(Snapshot()))
    {
      ghost var before := Snapshot();
      play := false;
      paused := false;
      playInSession := false;
      resumed := 0;
      ghost var cleared := before.(play := false, paused := false, playInSession := false, resumed := 0);
      assert Snapshot() == cleared;
      ResetToBeginning();
      assert Snapshot() == Reset(cleared);
      published := published + [StatusUpdate("stopped")];
    }

    method HandlePause()
      modifies this
      ensures Snapshot() == TogglePause(old(Snapshot()))
    {
      paused := !paused;
      var state := if paused then "paused" else "playing";
      published := published + [StatusUpdate(state), Reply("Playback " + state)];
    }

    method HandleAdvanceNewline()
      modifies this
      ensures Snapshot() == AdvanceNewline(old(Snapshot()))
    {
      advanceToNewline := advanceToNewline + 1;
      published := published + [Reply("Advancing to next newline")];
    }

    method HandleAdvanceToken()
      modifies this
      ensures Snapshot() == AdvanceOneToken(old(Snapshot()))
    {
      advanceToken := advanceToken + 1;
      published := published + [Reply("Advancing by one token")];
    }

    method HandleData()
      modifies this
      ensures Snapshot() == Data(old(Snapshot()))
    {
      if |preview| > 0 {
        published := published + [PreviewReply(preview)];
      } else {
        published := published + [NoData];
      }
    }

    method InitializeTextData(content: string)
      modifies this
      ensures Snapshot() == Loaded(old(Snapshot()), content)
    {
      ghost var e := Snapshot();
      var quad := Truthy(settings.replaceQuadSpacesWithTab);
      var tokens := ParseTextToTokens(content, quad);
      TokenizeByParts(content, quad, tokens);
      var entries := BuildPreview(tokens);
      textTokens := tokens;
      originalTextTokens := tokens;
      preview := entries;
      assert Snapshot() == e.(textTokens := tokens, originalTextTokens := tokens, preview := PreviewOf(tokens));
    }

    method HandleLoadFile(file: Option<string>, content: Option<string>)
      modifies this
      ensures Snapshot() == LoadFile(old(Snapshot()), file, content)
    {
      if file.None? || file.value == "" {
        published := published + [UiError("Missing 'file' parameter")];
        return;
      }
      if content.None? {
        published := published + [LoadFailed(file.value)];
        return;
      }
      InitializeTextData(content.value);
      published := published + [Reply("Loaded file: " + file.value)];
    }

    method SyncFromState()
      modifies this
      ensures Snapshot() == Synced(old(Snapshot()))
    {
      var c := stateValues;
      if "play_status" in c {
        if c["play_status"] == VStr("playing") {
          play, paused := true, false;
        } else if c["play_status"] == VStr("paused") {
          play, paused := true, true;
        } else {
          play, paused := false, false;
        }
      }
      settings := SyncedSettings(settings, c);
    }

    /** A STATE message carrying state-data. */
    method OnStateData(data: map<string, Value>)
      modifies this
      ensures Snapshot() == StateData(old(Snapshot()), data)
    {
      stateValues := stateValues + data;
      SyncFromState();
    }

    /** A TYPER command; content is the file's text for load_file, or None when it cannot be
        read. An unknown command is only logged. */
    method HandleCommand(cmd: Command, content: Option<string>)
      modifies this
      ensures cmd.UnknownCmd? ==> Snapshot() == old(Snapshot())
      ensures cmd.PlayCmd? ==> Snapshot() == Play(old(Snapshot()))
      ensures cmd.StopCmd? ==> Snapshot() == Stop(old(Snapshot()))
      ensures cmd.PauseCmd? ==> Snapshot() == TogglePause(old(Snapshot()))
      ensures cmd.AdvanceNewlineCmd? ==> Snapshot() == AdvanceNewline(old(Snapshot()))
      ensures cmd.AdvanceTokenCmd? ==> Snapshot() == AdvanceOneToken(old(Snapshot()))
      ensures cmd.DataCmd? ==> Snapshot() == Data(old(Snapshot()))
      ensures cmd.LoadFileCmd? ==> Snapshot() == LoadFile(old(Snapshot()), cmd.file, content)
    {
      match cmd {
        case LoadFileCmd(file) => HandleLoadFile(file, content);
        case DataCmd => HandleData();
        case PlayCmd => HandlePlay();
        case StopCmd => HandleStop();
        case PauseCmd => HandlePause();
        case AdvanceNewlineCmd => HandleAdvanceNewline();
        case AdvanceTokenCmd => HandleAdvanceToken();
        case UnknownCmd =>
      }
    }

    method CheckWindowFocused(pauseIfNot: bool, active: bool) returns (focused: bool)
      modifies this
      ensures (Snapshot(), focused) == CheckFocus(old(Snapshot()), pauseIfNot, active)
    {
      if !hasTarget || !Truthy(settings.pauseOnWindowNotFocused) {
        return true;
      }
      if !active {
        if pauseIfNot && !paused && settings.playStatus != VStr("stopped") {
          paused := true;
          published := published + [StatusUpdate("paused")];
        }
        return false;
      }
      return true;
    }

    /** The loops that press, and then release, every key of a chord. A key the controller
        rejects ends the first loop with pressed false and the keys before it held. */
    static method ChordActions(keys: seq<string>, keyNames: set<string>) returns (acts: seq<Action>, pressed: bool)
      ensures pressed <==> PressableRun(keys, keyNames) == |keys|
      ensures pressed ==> acts == Presses(keys) + Releases(keys)
      ensures !pressed ==> acts == Presses(keys[..PressableRun(keys, keyNames)])
    {
      var downs: seq<Action> := [];
      var i := 0;
      while i < |keys|
        invariant 0 <= i <= |keys| && downs == Presses(keys[..i])
        invariant forall j :: 0 <= j < i ==> Pressable(keys[j], keyNames)
      {
        if !Pressable(keys[i], keyNames) {
          return downs, false;
        }
        assert keys[..i + 1][..i] == keys[..i];
        downs := downs + [KeyDown(keys[i])];
        i := i + 1;
      }
      var ups: seq<Action> := [];
      i := 0;
      while i < |keys|
        invariant 0 <= i <= |keys| && ups == Releases(keys[..i])
      {
        assert keys[..i + 1][..i] == keys[..i];
        ups := ups + [KeyUp(keys[i])];
        i := i + 1;
      }
      assert keys[..|keys|] == keys;
      acts, pressed := downs + ups, true;
    }

    /** The loop that presses and releases a key count times. */
    static method TapActions(key: string, count: nat) returns (acts: seq<Action>)
      ensures acts == Taps(key, count)
    {
      acts := [];
      var n := 0;
      while n < count
        invariant 0 <= n <= count && acts == Taps(key, n)
      {
        acts := acts + [KeyDown(key), KeyUp(key)];
        n := n + 1;
      }
    }

    /** The loop that scrolls count steps. */
    static method ScrollActions(count: nat, direction: int) returns (acts: seq<Action>)
      ensures acts == Scrolls(count, direction)
    {
      acts := [];
      var n := 0;
      while n < count
        invariant 0 <= n <= count && acts == Scrolls(n, direction)
      {
        acts := acts + [Scroll(direction)];
        n := n + 1;
      }
    }

    method SpendNewlineCredit()
      modifies this
      ensures Snapshot() == Credit(old(Snapshot()))
    {
      if advanceToNewline > 0 {
        advanceToNewline := advanceToNewline - 1;
      }
      paused := true;
      published := published + [StatusUpdate("paused")];
    }

    /** A single-key token with the window focused; ok is false when the key raises. */
    method TypeSingleKey(key: string) returns (ok: bool)
      modifies this
      ensures ok <==> SingleKeyTyped(old(Snapshot()), key).Some?
      ensures ok ==> Snapshot() == SingleKeyTyped(old(Snapshot()), key).value
      ensures !ok ==> Snapshot() == old(Snapshot())
    {
      if key == "enter" && Truthy(settings.controlOnNewline) {
        actions := actions + [KeyDown("ctrl"), KeyDown("enter"), KeyUp("enter"), KeyUp("ctrl")];
      } else if key == "atpause" {
        SpendNewlineCredit();
      } else if key !in keyNames {
        return false;
      } else {
        actions := actions + [KeyDown(key), KeyUp(key)];
      }
      if key == "enter" && Truthy(settings.autoHomeOnNewline) {
        actions := actions + [KeyDown("home"), KeyUp("home")];
      }
      if key == "enter" && (Truthy(settings.pauseOnNewLine) || advanceToNewline > 0) {
        SpendNewlineCredit();
      }
      return true;
    }

    /** A token other than a raw string with the window focused; ok is false when it raises,
        and the state is then what the presses before the raise left. */
    method TypeToken(t: Token) returns (ok: bool)
      requires !t.Raw?
      modifies this
      ensures ok == !Typed(old(Snapshot()), t).raised
      ensures Snapshot() == Typed(old(Snapshot()), t).engine
    {
      match t {
        case MultiKeys(keys) =>
          var acts, pressed := ChordActions(keys, keyNames);
          actions := actions + acts;
          ok := pressed;
        case SingleKey(key) =>
          ok := TypeSingleKey(key);
        case TimedPause(time) =>
          actions := actions + [Wait(time)];
          ok := true;
        case MouseScroll(count, direction) =>
          var acts := ScrollActions(count, direction);
          actions := actions + acts;
          ok := true;
        case RepeatedKey(key, count) =>
          if count > 0 && key !in keyNames {
            ok := false;
          } else {
            var acts := TapActions(key, count);
            actions := actions + acts;
            ok := true;
          }
      }
    }

    method FinishPlayback()
      modifies this
      ensures Snapshot() == Finish(old(Snapshot()))
    {
      play, paused, playInSession := false, false, false;
      phase := Idle;
      published := published + [StatusUpdate("stopped")];
    }

    method CompleteToken(ts: seq<Token>, i: nat)
      requires i < |ts|
      modifies this
      ensures Snapshot() == Complete(old(Snapshot()), ts, i)
    {
      if advanceToken > 0 {
        advanceToken := advanceToken - 1;
      }
      if !play {
        FinishPlayback();
        return;
      }
      if |preview| > 0 {
        preview := preview[1..];
      }
      phase := Waiting(ts, i + 1);
    }

    method CaptureActiveWindow(captured: Option<string>)
      modifies this
      ensures Snapshot() == Capture(old(Snapshot()), captured)
    {
      match captured {
        case Some(title) =>
          hasTarget := true;
          windowTitle := Some(title);
        case None =>
          hasTarget := false;
      }
    }

    method CheckOwnWindow(title: string)
      modifies this
      ensures Snapshot() == OwnWindowCheck(old(Snapshot()), title)
    {
      if Occurs(title, "Ghost Coder") {
        play := false;
        paused := false;
        settings := settings.(playStatus := VStr("stopped"));
        published := published + [StatusUpdate("stopped"),
                                  UiNotify("Focus window is Ghost Coder... no new window was given focus.")];
      }
    }

    method BeginSession()
      modifies this
      ensures Snapshot() == OpenSession(old(Snapshot()))
    {
      ghost var e := Snapshot();
      playInSession := true;
      ghost var e2 := Snapshot();
      assert e2 == e.(playInSession := true);
      if Truthy(settings.startPlaybackPaused) {
        paused := true;
        published := published + [StatusUpdate("paused")];
      }
      ghost var e3 := Snapshot();
      assert e3 == if Truthy(e2.settings.startPlaybackPaused)
                   then e2.(paused := true, published := e2.published + [StatusUpdate("paused")]) else e2;
      phase := Waiting(textTokens, 0);
    }

    method StartTyping(title: string)
      modifies this
      ensures Snapshot() == StartLoop(old(Snapshot()), title)
    {
      CheckOwnWindow(title);
      BeginSession();
    }

    /** The delayed start: the target window is captured, then the loop over the tokens begins. */
    method BeginPlayback(captured: Option<string>)
      requires Valid(Snapshot())
      modifies this
      ensures Snapshot() == Begin(old(Snapshot()), captured)
    {
      CaptureActiveWindow(captured);
      if windowTitle.None? {
        phase := Aborted;
      } else {
        StartTyping(windowTitle.value);
      }
    }

    /** A round of the loop over the tokens. */
    method PollWaiting(ts: seq<Token>, i: nat, active: bool)
      requires Valid(Snapshot()) && phase == Waiting(ts, i)
      modifies this
      ensures Snapshot() == WaitingStep(old(Snapshot()), ts, i, active)
    {
      if i == |ts| || !play {
        FinishPlayback();
      } else if paused && advanceToNewline == 0 && advanceToken == 0 {
      } else if resumed > 0 {
        resumed := 0;
        phase := InToken(ts, i);
      } else if !paused {
        var focused := CheckWindowFocused(true, active);
        if focused || (paused && (advanceToNewline > 0 || advanceToken > 0)) {
          resumed := 0;
          phase := InToken(ts, i);
        }
      } else {
        resumed := 0;
        phase := InToken(ts, i);
      }
    }

    /** A round of type_token's loop. */
    method PollInToken(ts: seq<Token>, i: nat, active: bool)
      requires Valid(Snapshot()) && phase == InToken(ts, i)
      modifies this
      ensures Snapshot() == InTokenStep(old(Snapshot()), ts, i, active)
    {
      if !play {
        FinishPlayback();
      } else if ts[i].Raw? {
        phase := InText(ts, i, 0);
      } else {
        var focused := CheckWindowFocused(true, active);
        if focused {
          var ok := TypeToken(ts[i]);
          if ok {
            CompleteToken(ts, i);
          } else {
            phase := Aborted;
          }
        }
      }
    }

    /** A round of the loop over a raw token's characters. */
    method PollInText(ts: seq<Token>, i: nat, c: nat, active: bool)
      requires Valid(Snapshot()) && phase == InText(ts, i, c)
      modifies this
      ensures Snapshot() == TextStep(old(Snapshot()), ts, i, c, active)
    {
      var s := ts[i].text;
      if c == |s| {
        CompleteToken(ts, i);
        return;
      }
      var go := play && resumed > 0;
      if !go {
        var focused := CheckWindowFocused(true, active);
        go := (focused && !paused) || (play && paused && (advanceToNewline > 0 || advanceToken > 0));
      }
      if go {
        resumed := 0;
        actions := actions + [KeyDown([s[c]]), KeyUp([s[c]])];
        phase := InText(ts, i, c + 1);
      }
    }

    /** One step of the playback thread. */
    method Poll(active: bool, captured: Option<string>)
      requires Valid(Snapshot())
      modifies this
      ensures Snapshot() == Step(old(Snapshot()), active, captured)
    {
      match phase {
        case Idle =>
        case Aborted =>
        case Starting => BeginPlayback(captured);
        case Waiting(ts, i) => PollWaiting(ts, i, active);
        case InToken(ts, i) => PollInToken(ts, i, active);
        case InText(ts, i, c) => PollInText(ts, i, c, active);
      }
    }
  }
}
