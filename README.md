# Ghost Coder, modelled in Dafny

Ghost Coder replays prepared text into another application, as though it were typed. It has
four cooperating processes:

- The **tokenizer** (`TextData`) turns a text into playback tokens. It rewrites blanks and
  newlines as `<<space>>` and `<<enter>>`. It splits the text at every non-greedy `<<...>>`
  directive. It then parses each directive into one of these tokens:
  - a timed pause;
  - the pause key `atpause`;
  - a mouse scroll;
  - a repeated key;
  - escape or enter;
  - any key or `+`-separated chord, named through an alias table.
  A span that no directive pattern matches stays a raw string.
- The **state store** (`StateManager`) is a key-value dictionary. It is driven by `get`, `add`,
  `del` and `help` commands. Each command is answered by one reply.
- The **hotkey listener** (`Listener`) has eight hotkey slots:
  - `register` arms a recording, and the next press from the chosen source (keyboard, mouse
    or gamepad) becomes the slot's binding;
  - every later press fires a trigger for each slot bound to it, in slot order;
  - a binding can ask for the press to be suppressed.
- The **typer** (`Typer`) holds the play, pause and credit flags. The commands and the state
  broadcasts set them. Its playback thread types the loaded tokens one at a time. The flags,
  the newline and token credits, and whether the target window has the focus all gate it.

The project's modules follow those parts:

| file | module | contents |
|---|---|---|
| `strings.dfy` | `Strings` | JSON scalars, ASCII case mapping, `str.replace` / `join` / `split`, `int()` and `str()` on integers |
| `tokens.dfy` | `Tokens` | the token classes and their preview strings (`__str__`) |
| `tokenizer.dfy` | `Tokenizer` | the rewrite, the regex split, the directive parser, `TextData` |
| `state_store.dfy` | `StateStore` | the command handlers as functions, and the `StateManager` class |
| `listener.dfy` | `HotkeyListener` | slots, recording, triggering, and the `Listener` class |
| `playback.dfy` | `Playback` | the engine state as a value, and the `Typer` class whose methods are proved against it |

The typer's state is the datatype `Engine`. Each command and each step of the playback thread
is a function on it. The class `Typer` holds the same fields. Each of its methods ensures
`Snapshot() == F(old(Snapshot()))` for the function `F` that specifies it.

The playback thread is a state machine, `Phase`:

- `Starting`: the delayed start;
- `Waiting`: the loop over the tokens;
- `InToken`: `type_token`;
- `InText`: the loop over a raw string's characters;
- `Aborted`: the thread died of an exception.

One `Step` is one round of whichever loop the thread is in. The environment enters as
parameters: whether the target window is active, and the title of the window captured at
start.

Behaviour the model keeps as the code has it:

- A single-key token whose key is not a keyboard key (for example `<<a>>`) raises in the
  playback thread. The thread dies (`Aborted`) with `play` and `play_in_session` still set.
- A chord key that is neither a keyboard key nor one character (for example the empty key of
  `<<ctrl+>>`, or `pgup`, which is not in the alias table) makes the press raise. The keys
  before it stay pressed when the thread dies.
- The character loop of a raw-string token does not look at `play`. After a stop, with the
  window focused, it goes on typing the rest of that string.
- The window title is only set when a window is captured. A thread that starts without ever
  having captured one raises at the title check.
- Recording a keyboard or mouse binding does not clear the pending gamepad name. Only a
  gamepad recording clears it.
- `listener.py` defines `_on_mouse_scroll` twice. The second definition (lines 494-527) is
  the one in effect, and it is the one modelled.
- A scroll is matched against mouse bindings but is not added to the pressed-button set.
- A gamepad press never suppresses.

## Model

| member | source | states |
|---|---|---|
| `Strings.IntOfDigits` | src/ghost_coder/data.py:90-147 | `int()` of a digit run is its value, and raises exactly when the run is longer than 4300 digits, leading zeros included |
| `Strings.ParseInt` | src/ghost_coder/state.py:130-131 | the model's `int(s)` succeeds exactly on an optional sign followed by one to 4300 ASCII digits |
| `Strings.ParseIntOfIntToString` | src/ghost_coder/state.py:130-142 | `int(str(i)) == i` for every integer of at most 4300 digits; past that `int()` refuses the text |
| `Strings.LowerOfUpper` | src/ghost_coder/state.py:137-138 | lower-casing after upper-casing is lower-casing alone |
| `Strings.ReplaceAllChars` | src/ghost_coder/data.py:70-72 | every character after `str.replace` comes from the input, or from the replacement when the pattern occurs |
| `Strings.ReplaceAllShowsRep` | src/ghost_coder/data.py:70-72 | when the pattern occurs, `str.replace` puts the replacement into the result |
| `Strings.ReplaceCharConcat` | src/ghost_coder/data.py:72 | replacing a one-character pattern distributes over concatenation |
| `Strings.ReplaceCharSingle` | src/ghost_coder/data.py:72 | a one-character text is replaced exactly when it is the pattern |
| `Strings.ReplaceCharAbsent` | src/ghost_coder/data.py:72 | a one-character pattern absent from the text leaves it unchanged |
| `Strings.ReplaceAllRemovesChar` | src/ghost_coder/data.py:72 | replacing a character by text without it leaves no occurrence of that character |
| `Strings.ReplaceAllAbsent` | src/ghost_coder/listener.py:428 | `str.replace` leaves a string in which the pattern does not occur unchanged |
| `Strings.Split` | src/ghost_coder/data.py:161 | `split('+')` never returns an empty list |
| `Strings.SplitPartsFree` | src/ghost_coder/data.py:161 | no part of a split holds the separator |
| `Strings.JoinSplit` | src/ghost_coder/data.py:161 | joining the parts of `split('+')` with `'+'` gives back the directive body |
| `Strings.SplitJoin` | src/ghost_coder/data.py:19 | splitting a `'+'`-join of parts without `'+'` gives back the parts |
| `Tokens.Render` | src/ghost_coder/data.py:9-46 | `str(token)` for each token class; what it promises is stated by the four lemmas below |
| `Tokens.PreviewOf` | src/ghost_coder/typer.py:313 | the preview has one `"[ " + str(token) + " ]"` entry per token, in order |
| `Tokens.PreviewOfAppend` | src/ghost_coder/typer.py:313 | the preview of a list extended by a token is the old preview plus that token's entry |
| `Tokens.RepeatedKeyRenderShowsCount` | src/ghost_coder/data.py:43-46 | a repeated key's preview carries a lower-case `x` exactly when its count is not 1, and the digits after it read back as the count |
| `Tokens.SpaceRendersAsBlank` | src/ghost_coder/data.py:9-12 | the space key previews as a single blank |
| `Tokens.MultiKeysRenderSplits` | src/ghost_coder/data.py:18-19 | splitting a chord's preview at `'+'` gives its key names, upper-cased, in order |
| `Tokenizer.Rewrite` | src/ghost_coder/data.py:69-72 | the optional four-space fold, then blanks and newlines as directives; stated by `RewriteCons`, `RewriteQuad`, `RewriteTabs` and `RewriteLeavesNoBlank` |
| `Tokenizer.EscapedConcat` | src/ghost_coder/data.py:72 | escaping blanks and newlines distributes over concatenation |
| `Tokenizer.EscapedSingle` | src/ghost_coder/data.py:72 | a blank escapes to `<<space>>`, a newline to `<<enter>>`, and any other character to itself |
| `Tokenizer.RewriteCons` | src/ghost_coder/data.py:69-72 | for every text that does not start with a folded run of four spaces, the rewrite is the first character's rewrite (`<<space>>`, `<<enter>>` or the character itself) followed by the rewrite of the rest |
| `Tokenizer.RewriteQuad` | src/ghost_coder/data.py:70-71 | with the option on, four leading spaces become one tab followed by the rewrite of the rest |
| `Tokenizer.RewriteTabs` | src/ghost_coder/data.py:69-72 | a tab comes out exactly when the text has one, or the option is on and the text holds four spaces in a row |
| `Tokenizer.RewriteLeavesNoBlank` | src/ghost_coder/data.py:69-72 | after the rewrite no blank or newline is left; a tab in the text survives |
| `Tokenizer.FindFromLeftmost` | src/ghost_coder/data.py:75 | the search for `>>` finds the leftmost occurrence, so a directive ends at its first `>>` (the non-greedy `.*?`) |
| `Tokenizer.RegexSplit` | src/ghost_coder/data.py:74-75 | `re.split` with the capturing group; an odd number of parts, stated further by the three lemmas below |
| `Tokenizer.RegexSplitConcat` | src/ghost_coder/data.py:75 | the parts of `re.split` with a capturing group concatenate back to the text |
| `Tokenizer.RegexSplitKinds` | src/ghost_coder/data.py:75 | the parts alternate: every even-position part is literal text holding no directive, and every odd-position part is exactly one non-greedy `<<...>>` match; a literal part followed by a match holds no `<<`, not even one whose second `<` opens the match, so every match is the leftmost |
| `Tokenizer.SplitTakesLeftmostOpen` | src/ghost_coder/data.py:75 | `<<<b>>` splits into one directive span starting at its first `<` |
| `Tokenizer.StringTokens` | src/ghost_coder/data.py:69-77 | the split of the rewritten text with empty parts dropped; stated by `StringTokensSpans` |
| `Tokenizer.SplitSpanKinds` | src/ghost_coder/data.py:74-77 | once empty parts are dropped, every span is non-empty and is either one match, or a literal without a directive that, when a span follows, is followed by a match and ends where the leftmost `<<` begins |
| `Tokenizer.StringTokensSpans` | src/ghost_coder/data.py:69-77 | the string tokens concatenate to the rewritten text and have the kinds `SplitSpanKinds` states |
| `Tokenizer.SpanKindsExclusive` | src/ghost_coder/data.py:75 | no span is both a directive match and literal text |
| `Tokenizer.NormalizeKeys` | src/ghost_coder/data.py:194-200 | every key name of a chord is lower-cased and mapped through the alias table, in order |
| `Tokenizer.ParseSpan` | src/ghost_coder/data.py:57-206 | the pattern chain on one span, a `ValueError` keeping the raw span; stated per pattern by the lemmas below |
| `Tokenizer.LiteralSpanIsRaw` | src/ghost_coder/data.py:79-206 | a span without a directive matches no pattern, raises, and is kept as the raw string |
| `Tokenizer.DirectiveParsesBody` | src/ghost_coder/data.py:79-206 | a `<<body>>` span whose body has no angle bracket parses exactly as the pattern chain decides on the body |
| `Tokenizer.TimedPauseSpan` | src/ghost_coder/data.py:81-83 | `<<pause=N>>`, in any letter case, is a timed pause of N seconds |
| `Tokenizer.BarePauseSpan` | src/ghost_coder/data.py:86-87 | `<<pause>>`, in any letter case, is the `atpause` key |
| `Tokenizer.ScrollSpan` | src/ghost_coder/data.py:90-96 | `<<scrollup=N>>` and `<<scrolldown=N>>` are N scroll steps with direction 1 and -1; with more than 4300 digits `int()` raises and the span stays raw, as data.py:57-66 catches the error |
| `Tokenizer.RepeatedSpan` | src/ghost_coder/data.py:98-147 | `<<KEY>>` and `<<KEY=N>>` for each repeat keyword, in any letter case, press the table's key once or N times; with more than 4300 digits `int()` raises and the span stays raw, as data.py:57-66 catches the error |
| `Tokenizer.EscEnterSpan` | src/ghost_coder/data.py:150-155 | `<<esc>>`, `<<escape>>` and `<<enter>>`, in any letter case, are the escape and enter keys |
| `Tokenizer.KeySpan` | src/ghost_coder/data.py:159-204 | any non-empty body without angle brackets that no earlier pattern accepts is one key, or a chord of several, after normalisation |
| `Tokenizer.WordKeySpan` | src/ghost_coder/data.py:79-204 | a body without `=` that spells no keyword reaches the key pattern |
| `Tokenizer.EqualsKeySpans` | src/ghost_coder/data.py:79-204 | `<<ctrl+=>>` is the chord of ctrl and `=`, `<<pause=x>>` the key `pause=x`, and `<<SCROLLUP=3>>` (the scroll keywords are case-sensitive) the key `scrollup=3` |
| `Tokenizer.EmptyDirectiveIsRaw` | src/ghost_coder/data.py:159-206 | `<<>>` matches no pattern and stays raw text |
| `Tokenizer.Tokenize` | src/ghost_coder/data.py:57-66 | the parse of every string token; stated by `ParseAll`, `TokenizeKeepsLiterals` and `TokenizeByParts` |
| `Tokenizer.ParseAll` | src/ghost_coder/data.py:57-66 | one token per string token, each the parse of its span, in order |
| `Tokenizer.TokenizeKeepsLiterals` | src/ghost_coder/data.py:57-66 | tokenizing keeps the literal text between directives as raw strings, unchanged |
| `Tokenizer.ParseTextToTokens` | src/ghost_coder/data.py:57-66 | the accumulating loop yields the parse of every string token, in order |
| `Tokenizer.TokenizeByParts` | src/ghost_coder/data.py:57-66 | any list that agrees with the parse of every string token is the tokenization |
| `Tokenizer.NewTextData` | src/ghost_coder/data.py:51-54 | a `TextData` keeps its text and option and holds the parse of every string token |
| `StateStore.Coerce` | src/ghost_coder/state.py:129-142 | `int`: a bool becomes 1 or 0, an integer is kept, text is `int()` of it, null fails. `bool`: a bool is kept, a string is true exactly when lower-cased it is `true`, `1` or `yes`, anything else by truthiness. Any other type is `str(value)`, which fails only for an integer of more than 4300 digits |
| `StateStore.Get` | src/ghost_coder/state.py:93-108 | the whole state without a key; otherwise the stored value, or a not-found error naming the key |
| `StateStore.Add` | src/ghost_coder/state.py:110-152 | the reply is ok exactly when the key and value are present and the conversion succeeds; then only that key changes; otherwise nothing does |
| `StateStore.Delete` | src/ghost_coder/state.py:154-172 | the key is removed; ok exactly when it was present, otherwise a warning naming it |
| `StateStore.Dispatch` | src/ghost_coder/state.py:72-91 | only `add` and `del` change the state; exactly the four known commands are answered |
| `StateStore.AddThenGet` | src/ghost_coder/state.py:110-152 | after a successful add, get returns the converted value |
| `StateStore.AddIdempotent` | src/ghost_coder/state.py:110-152 | adding the same value twice is adding it once |
| `StateStore.AddKeepsOtherKeys` | src/ghost_coder/state.py:144 | add does not change what get returns for any other key |
| `StateStore.DeleteThenGet` | src/ghost_coder/state.py:154-172 | after del, get reports the key not found, and a second del only warns |
| `StateStore.DeleteUndoesAdd` | src/ghost_coder/state.py:164-165 | deleting a key just added restores the state that lacked it |
| `StateStore.IntTextRoundTrip` | src/ghost_coder/state.py:130-142 | an integer of at most 4300 digits added as `str` and its text added as `int` gives back the integer; a longer one cannot be added as `str` |
| `StateStore.BoolTextRoundTrip` | src/ghost_coder/state.py:134-138 | a bool sent as `True`/`False` text and added as `bool` is stored as that bool |
| `StateStore.BoolWords` | src/ghost_coder/state.py:134-140 | every string converts to true exactly when lower-cased it is `true`, `1` or `yes`, and upper-casing it first changes nothing |
| `StateStore.StateManager.HandleGet` | src/ghost_coder/state.py:93-108 | publishes `Get`'s reply and keeps the state |
| `StateStore.StateManager.HandleAdd` | src/ghost_coder/state.py:110-152 | the new state and the one reply published are `Add`'s |
| `StateStore.StateManager.HandleDelete` | src/ghost_coder/state.py:154-172 | the new state and the one reply published are `Delete`'s |
| `StateStore.StateManager.HandleMessage` | src/ghost_coder/state.py:72-91 | the new state and the replies published are `Dispatch`'s |
| `HotkeyListener.ParseSource` | src/ghost_coder/listener.py:29-33 | `InputSource(text)` succeeds exactly on keyboard, mouse and gamepad, naming that source |
| `HotkeyListener.ParseSourceName` | src/ghost_coder/listener.py:29-33 | every source is read back from its value |
| `HotkeyListener.Payload` | src/ghost_coder/listener.py:604-620 | a trigger event has event, slot, source and value; gamepad_name and message appear exactly when non-empty |
| `HotkeyListener.PayloadReadsBack` | src/ghost_coder/listener.py:604-620 | the slot, source, value, device name and message are recovered from the event |
| `HotkeyListener.Firing` | src/ghost_coder/listener.py:407-411 | every trigger fired is for a bound slot that matches the press, and the triggers come in increasing slot order |
| `HotkeyListener.FiringComplete` | src/ghost_coder/listener.py:407-411 | every slot whose binding matches the press fires |
| `HotkeyListener.SuppressedIffSomeSlot` | src/ghost_coder/listener.py:406-414 | a press is suppressed exactly when some slot bound to it asks for suppression |
| `HotkeyListener.Cleared` | src/ghost_coder/listener.py:369-374 | clearing empties the slot and keeps every other one |
| `HotkeyListener.ClearIdempotent` | src/ghost_coder/listener.py:369-374 | clearing a slot twice is clearing it once |
| `HotkeyListener.ClearedSlotNeverFires` | src/ghost_coder/listener.py:369-374 | a cleared slot fires for no press |
| `HotkeyListener.Matches` | src/ghost_coder/listener.py:585-592 | a binding matches a press of its source and value (also at listener.py:408, 470 and 521); a gamepad binding also needs no device name or the pressing device's |
| `HotkeyListener.FormatKey` | src/ghost_coder/listener.py:423-430 | the key's character when it has one, else its text without `Key.`; stated by `FormatSpecialKey` |
| `HotkeyListener.FormatButton` | src/ghost_coder/listener.py:529-531 | the button's text without `Button.`; stated by `FormatNamedButton` |
| `HotkeyListener.FormatSpecialKey` | src/ghost_coder/listener.py:423-430 | a special key `Key.<name>` is known by its bare name |
| `HotkeyListener.FormatNamedButton` | src/ghost_coder/listener.py:529-531 | a button `Button.<name>` is known by its bare name |
| `HotkeyListener.ScrollName` | src/ghost_coder/listener.py:496 | up or down by the sign of dy when dy is not 0; otherwise right when dx > 0, else left |
| `HotkeyListener.Listener.constructor` | src/ghost_coder/listener.py:58-101 | eight empty slots, nothing recorded, the configured gamepad or else the first found |
| `HotkeyListener.Listener.RegisterHotkey` | src/ghost_coder/listener.py:341-367 | a bad slot, a bad source or a gamepad source with no gamepad is an error that changes nothing; otherwise the recording is armed with the given settings |
| `HotkeyListener.Listener.ClearHotkey` | src/ghost_coder/listener.py:369-374 | the slots become `Cleared`; nothing else changes |
| `HotkeyListener.Listener.Fire` | src/ghost_coder/listener.py:406-414 | publishes exactly `Firing`'s triggers and returns whether any asks to suppress |
| `HotkeyListener.Listener.StoreRecording` | src/ghost_coder/listener.py:385-401 | the recorded press becomes the slot's binding and the recording is cleared |
| `HotkeyListener.Listener.OnKeyboardPress` | src/ghost_coder/listener.py:378-414 | records the key when a keyboard recording is armed; otherwise marks it pressed and fires |
| `HotkeyListener.Listener.OnKeyboardRelease` | src/ghost_coder/listener.py:416-421 | the key is no longer pressed; nothing else changes |
| `HotkeyListener.Listener.OnMouseClick` | src/ghost_coder/listener.py:434-476 | a release unmarks the button; a press is recorded or marked and fired |
| `HotkeyListener.Listener.OnMouseScroll` | src/ghost_coder/listener.py:494-527 | the scroll's name is recorded, or fired as a mouse press |
| `HotkeyListener.Listener.OnGamepadEvent` | src/ghost_coder/listener.py:545-593 | other event types and other devices are ignored; a release unmarks; a press is recorded with its device, or marked and fired |
| `HotkeyListener.Listener.OnMessage` | src/ghost_coder/listener.py:113-157 | events, `help`, `get_gamepads` and unknown commands change no listener state (their replies are not modelled); unregister clears the slot; register arms a recording with the selected gamepad |
| `Playback.Play` | src/ghost_coder/typer.py:187-214 | the play command; stated by `PlayWithoutTokens` and `PlayStarts` |
| `Playback.Stop` | src/ghost_coder/typer.py:216-229 | the stop command; stated by `StopResets` |
| `Playback.TogglePause` | src/ghost_coder/typer.py:231-248 | the pause command; stated by `PauseTwice` |
| `Playback.AdvanceNewline` | src/ghost_coder/typer.py:250-255 | one more newline credit; stated by `AdvanceCredits` |
| `Playback.AdvanceOneToken` | src/ghost_coder/typer.py:257-262 | one more token credit; stated by `AdvanceCredits` |
| `Playback.Data` | src/ghost_coder/typer.py:177-185 | the preview, or the no-data warning when it is empty |
| `Playback.Loaded` | src/ghost_coder/typer.py:306-314 | the file's tokens and their preview; stated by `LoadedPreview` |
| `Playback.LoadFile` | src/ghost_coder/typer.py:157-175 | a missing path and an unreadable file are errors; otherwise the file is loaded and acknowledged |
| `Playback.Reset` | src/ghost_coder/typer.py:542-549 | with original tokens, they come back with a full preview; otherwise nothing changes |
| `Playback.SyncedSettings` | src/ghost_coder/typer.py:277-292 | each setting present in the cache takes its value; every other keeps its own |
| `Playback.Synced` | src/ghost_coder/typer.py:264-292 | play_status playing, paused, or anything else sets play and paused accordingly; without it they are kept |
| `Playback.StateData` | src/ghost_coder/typer.py:117-127 | the broadcast's keys overwrite the cache and every other cached key is kept |
| `Playback.CheckFocus` | src/ghost_coder/typer.py:499-518 | focused unless there is a target, focus checking is on and it is not active; an unfocused target pauses when asked and not stopped |
| `Playback.Finish` | src/ghost_coder/typer.py:490-497 | the thread ends idle |
| `Playback.Credit` | src/ghost_coder/typer.py:363-367 | playback pauses and one newline credit, if any, is spent; nothing else changes |
| `Playback.Presses` | src/ghost_coder/typer.py:325-331 | every key of a chord pressed, in order |
| `Playback.Releases` | src/ghost_coder/typer.py:332-337 | every key of a chord released, in order |
| `Playback.Taps` | src/ghost_coder/typer.py:380-388 | a repeated key pressed and released count times |
| `Playback.Scrolls` | src/ghost_coder/typer.py:374-379 | count scroll steps in the token's direction |
| `Playback.SingleKeyTyped` | src/ghost_coder/typer.py:339-367 | typing a single key keeps the key set and the thread's phase |
| `Playback.PressableRun` | src/ghost_coder/typer.py:323-331 | the keys of a chord before the first one the controller rejects (neither a special key nor one character) |
| `Playback.Typed` | src/ghost_coder/typer.py:316-409 | typing a token keeps the key set, the thread's phase, play and the token credit, and never clears a pause |
| `Playback.ChordTyped` | src/ghost_coder/typer.py:323-338 | a chord raises exactly when one of its keys is neither a special key nor one character; without a raise every key is pressed then released, in order; with one the keys before the first rejected key are pressed and left held |
| `Playback.ChordWithEmptyKeyRaises` | src/ghost_coder/typer.py:323-331 | `<<ctrl+>>` presses ctrl and raises at the empty key |
| `Playback.RaiseAbortsInSession` | src/ghost_coder/typer.py:316-409 | a raise ends the thread with the pressed keys held and play and the session still set, so a later play only signals the dead thread |
| `Playback.Complete` | src/ghost_coder/typer.py:477-497 | a finished token ends the thread or moves it to the next token |
| `Playback.Capture` | src/ghost_coder/typer.py:435-448 | capturing the window keeps the thread's phase |
| `Playback.OwnWindowCheck` | src/ghost_coder/typer.py:418-429 | a target titled Ghost Coder stops playback; any other leaves the engine as it is |
| `Playback.OpenSession` | src/ghost_coder/typer.py:450-458 | the session opens at the first token, paused when it is to start paused |
| `Playback.StartLoop` | src/ghost_coder/typer.py:418-458 | the loop begins at the first loaded token, in session |
| `Playback.Begin` | src/ghost_coder/typer.py:411-433 | the delayed start keeps the engine invariant |
| `Playback.WaitStep` | src/ghost_coder/typer.py:460-476 | a round either waits or goes into the current token; a pause set by the focus check lets a held credit in within the same round |
| `Playback.WaitingStep` | src/ghost_coder/typer.py:458-497 | the loop over the tokens keeps the engine invariant |
| `Playback.KeyStep` | src/ghost_coder/typer.py:316-409 | a round of `type_token` keeps the engine invariant |
| `Playback.InTokenStep` | src/ghost_coder/typer.py:316-409 | entering `type_token` keeps the engine invariant |
| `Playback.TextStep` | src/ghost_coder/typer.py:389-407 | a round of the character loop keeps the engine invariant |
| `Playback.Step` | src/ghost_coder/typer.py:411-497 | every step of the playback thread keeps the engine invariant |
| `Playback.PlayWithoutTokens` | src/ghost_coder/typer.py:187-193 | play without tokens only reports the error |
| `Playback.PlayStarts` | src/ghost_coder/typer.py:187-214 | play sets playing; in a session it resumes the thread, otherwise it starts one |
| `Playback.StopResets` | src/ghost_coder/typer.py:216-229 | stop leaves play, pause and the session, and restores the original tokens and preview |
| `Playback.PauseTwice` | src/ghost_coder/typer.py:231-248 | one pause flips the flag; two pauses restore it and change nothing but the messages; each publishes the new status |
| `Playback.AdvanceCredits` | src/ghost_coder/typer.py:250-262 | each advance command adds one credit of its kind and changes nothing else |
| `Playback.LoadedPreview` | src/ghost_coder/typer.py:306-314 | loading keeps a copy of the tokens and one preview entry per token |
| `Playback.AtPauseCredit` | src/ghost_coder/typer.py:347-352 | a pause token always pauses and spends a newline credit if there is one |
| `Playback.EnterCredit` | src/ghost_coder/typer.py:339-367 | enter pauses and spends a credit when pausing on newlines or holding one; otherwise it leaves both alone |
| `Playback.CompleteSpendsCredit` | src/ghost_coder/typer.py:477-497 | a finished token spends a token credit; while playing it drops one preview entry and moves on; once stopped the thread finishes |
| `Playback.LoopEndStops` | src/ghost_coder/typer.py:458-497 | when the tokens are done or play is cleared the thread ends out of play and publishes stopped |
| `Playback.PausedWithoutCreditWaits` | src/ghost_coder/typer.py:460-465 | paused without credit the thread changes nothing |
| `Playback.TokenCreditTypesOne` | src/ghost_coder/typer.py:316-488 | paused with one token credit, the thread goes into the next token whatever the focus; a key token is then typed when the target is focused: unless it raises, the credit is spent and the thread moves on, still paused; a raise ends the thread; without the focus nothing changes |
| `Playback.TokenCreditTypesRawChar` | src/ghost_coder/typer.py:389-476 | paused with one token credit before a raw string, the thread types its first character whatever the focus, keeping the credit for the rest of the string |
| `Playback.CreditTypesChar` | src/ghost_coder/typer.py:393-405 | paused with a credit while playing, the next character is typed even when the target is not focused |
| `Playback.StoppedTextKeepsTyping` | src/ghost_coder/typer.py:393-405 | after stop, with the target focused or absent, the next character of the current raw string is still typed |
| `Playback.UnfocusedTextPauses` | src/ghost_coder/typer.py:393-405 | unpaused with the target not focused, a character waits and playback pauses unless stopped; it is typed only when that pause meets a credit while playing |
| `Playback.UnfocusedWaitPauses` | src/ghost_coder/typer.py:460-476 | playing with the target not focused, the loop pauses playback unless stopped and types nothing; it goes into the token in that same round exactly when the pause meets a newline or token credit, and otherwise stays before it |
| `Playback.StopThenPlayRestarts` | src/ghost_coder/typer.py:187-229 | stop then play starts a new thread at the first original token with the full preview |
| `Playback.Typer.constructor` | src/ghost_coder/typer.py:32-84 | the object starts as `Init` |
| `Playback.Typer.HandlePlay` | src/ghost_coder/typer.py:187-214 | the new state is `Play`'s |
| `Playback.Typer.BuildPreview` | src/ghost_coder/typer.py:313 | the comprehension builds `PreviewOf` the tokens |
| `Playback.Typer.ResetToBeginning` | src/ghost_coder/typer.py:542-549 | the new state is `Reset`'s |
| `Playback.Typer.HandleStop` | src/ghost_coder/typer.py:216-229 | the new state is `Stop`'s |
| `Playback.Typer.HandlePause` | src/ghost_coder/typer.py:231-248 | the new state is `TogglePause`'s |
| `Playback.Typer.HandleAdvanceNewline` | src/ghost_coder/typer.py:250-255 | the new state is `AdvanceNewline`'s |
| `Playback.Typer.HandleAdvanceToken` | src/ghost_coder/typer.py:257-262 | the new state is `AdvanceOneToken`'s |
| `Playback.Typer.HandleData` | src/ghost_coder/typer.py:177-185 | the new state is `Data`'s |
| `Playback.Typer.InitializeTextData` | src/ghost_coder/typer.py:306-314 | the new state is `Loaded`'s |
| `Playback.Typer.HandleLoadFile` | src/ghost_coder/typer.py:157-175 | the new state is `LoadFile`'s |
| `Playback.Typer.SyncFromState` | src/ghost_coder/typer.py:264-292 | the new state is `Synced`'s |
| `Playback.Typer.OnStateData` | src/ghost_coder/typer.py:117-127 | the new state is `StateData`'s |
| `Playback.Typer.HandleCommand` | src/ghost_coder/typer.py:130-151 | each TYPER command moves the state by its own function; an unknown one changes nothing |
| `Playback.Typer.CheckWindowFocused` | src/ghost_coder/typer.py:499-518 | the new state and the answer are `CheckFocus`'s |
| `Playback.Typer.ChordActions` | src/ghost_coder/typer.py:323-338 | the two loops press then release every key; a rejected key stops the first loop with the keys before it pressed |
| `Playback.Typer.TapActions` | src/ghost_coder/typer.py:380-388 | the loop taps the key count times |
| `Playback.Typer.ScrollActions` | src/ghost_coder/typer.py:374-379 | the loop scrolls count steps |
| `Playback.Typer.SpendNewlineCredit` | src/ghost_coder/typer.py:363-367 | the new state is `Credit`'s |
| `Playback.Typer.TypeSingleKey` | src/ghost_coder/typer.py:339-367 | succeeds exactly when `SingleKeyTyped` does, with its state; otherwise nothing changes |
| `Playback.Typer.TypeToken` | src/ghost_coder/typer.py:316-388 | the new state is `Typed`'s, including the presses made before a raise, and it reports whether the typing raised |
| `Playback.Typer.FinishPlayback` | src/ghost_coder/typer.py:490-497 | the new state is `Finish`'s |
| `Playback.Typer.CompleteToken` | src/ghost_coder/typer.py:477-497 | the new state is `Complete`'s |
| `Playback.Typer.CaptureActiveWindow` | src/ghost_coder/typer.py:435-448 | the new state is `Capture`'s |
| `Playback.Typer.CheckOwnWindow` | src/ghost_coder/typer.py:418-429 | the new state is `OwnWindowCheck`'s |
| `Playback.Typer.BeginSession` | src/ghost_coder/typer.py:450-458 | the new state is `OpenSession`'s |
| `Playback.Typer.StartTyping` | src/ghost_coder/typer.py:418-458 | the new state is `StartLoop`'s |
| `Playback.Typer.BeginPlayback` | src/ghost_coder/typer.py:411-433 | the new state is `Begin`'s |
| `Playback.Typer.PollWaiting` | src/ghost_coder/typer.py:458-497 | the new state is `WaitingStep`'s |
| `Playback.Typer.PollInToken` | src/ghost_coder/typer.py:316-409 | the new state is `InTokenStep`'s |
| `Playback.Typer.PollInText` | src/ghost_coder/typer.py:389-407 | the new state is `TextStep`'s |
| `Playback.Typer.Poll` | src/ghost_coder/typer.py:411-497 | the new state is `Step`'s |

## Left out

- The MQTT transport, the JSON encoding of messages, the broker, `app.py` and `utils.py` are not part of this model. A message is modelled as its decoded fields.
- The `APP` topic's `CLOSE` command, and the processes' `start` and `stop` lifecycle, are not modelled.
- The state store's `help` reply is one constant reply (`HelpText`). The listener's `help` reply, its `get_gamepads` command and its device listing are not modelled.
- The keyboard, mouse and gamepad libraries and the window library enter as parameters:
  - whether the target window is active;
  - the title of the captured window;
  - the set of keyboard key names;
  - the first gamepad found;
  - a file's text, or its absence when it cannot be read.
- Each typed action is recorded in `actions` instead of being sent to the keyboard or the mouse.
- Threads, the locks and every sleep are left out: the start delay, the typing speed and the polling intervals.
  - One `Step` is treated as atomic.
  - A second playback thread started while one runs is not modelled.
- Activating the target window is left out, and so is the refocus wait on resume.
- Log messages are left out.
- Exceptions from publishing a message are left out.
- Floating-point numbers are not modelled:
  - JSON values are null, bools, integers and strings;
  - a timed pause holds a whole number of seconds.
- `Tokens.Render` does not raise for a count of more than 4300 digits, as Python's `str()` would. The tokenizer never produces one, because its counts come from `int()` of at most 4300 digits.
- Integers of more than 4300 digits cannot arrive in a JSON message, because decoding applies the same limit. The listener's slot number and the typer's settings are therefore not checked against it.
- The digit limit is modelled at its default of 4300. Changing it with `sys.set_int_max_str_digits` is not modelled.
- `Tokens.Render` prints a timed pause as `N.0`. Python prints very large floats in exponent form, and that form is not modelled.
- `StateStore.Coerce` requires the type not to be `float`, because float conversion is not modelled.
- `StateStore.Add` requires the type not to be `float`, for the same reason.
- `StateStore.Dispatch` requires the type not to be `float`, for the same reason.
- `StateStore.StateManager.HandleAdd` requires the type not to be `float`, for the same reason.
- `StateStore.StateManager.HandleMessage` requires the type not to be `float`, for the same reason.
- `Strings.ParseInt` is the model's `int()` of text: an optional sign and one to 4300 ASCII digits. Python's `int()` also accepts surrounding whitespace, underscores between digits and non-ASCII digits, and the model rejects them.
- `StateStore.Coerce`:
  - Its `int` conversion accepts an optional sign and ASCII digits only. Python's `int()` also accepts surrounding whitespace, underscores and non-ASCII digits.
  - The text of the conversion error is not modelled.
  - Lists and dictionaries as values are not modelled.
- ASCII case mapping and ASCII digits stand in for Python's Unicode `lower()`, `upper()`, `IGNORECASE` and `\d`.
- `HotkeyListener.Cleared` keeps the eight slots as they are for a slot number outside 1 to 8. Python adds a dictionary entry that nothing reads. A non-integer slot is not modelled.
- The fallback of `_format_key` when reading a key raises is not modelled.
- The suppress result is modelled as a bool. How the input library treats a `False` return is not modelled.
- Window handles (`_update_window_handle`) and the refocus of the target window are not modelled.
