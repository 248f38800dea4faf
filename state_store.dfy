/** The key-value state process (state.py): a dictionary of typed values driven by get / add /
    del / help commands, each answered by one reply on the STATE topic. */
module StateStore {
  import opened Strings

  /** A command as received on the STATE topic. A field the message lacks, or sends as null,
      is None (the handlers read every field with dict.get). */
  datatype Command = Command(cmd: Option<string>, key: Option<string>, value: Value, valueType: Option<string>)

  /** The reply published for a command. */
  datatype Reply =
    | Ok                                       // {"result": "ok"}
    | OkWithWarning(warning: string)           // {"result": "ok", "warning": ...}
    | Failed(error: string)                    // {"result": "error", "error": ...}
    | ConversionFailed(valueType: string)      // {"result": "error", "error": "Failed to convert value to <type>: ..."}
    | WholeState(state: map<string, Value>)    // {"result": <the whole state>}
    | Found(value: Value)                      // {"result": <value>}
    | NotFound(error: string)                  // {"result": null, "error": ...}
    | HelpText                                 // the help document

  datatype Outcome = Outcome(state: map<string, Value>, reply: Reply)

  function NotFoundMessage(key: string): string {
    "Key '" + key + "' not found"
  }

  const MissingKey := "Missing 'key' parameter"
  const MissingValue := "Missing 'value' parameter"

  /** The words a string value of a bool must spell (after lower-casing) to mean true. */
  predicate TrueWord(s: string) {
    var l := Lower(s);
    l == "true" || l == "1" || l == "yes"
  }

  /** str(value) in Python. */
  function Str(v: Value): (r: string) {
    match v
    case VNull => "None"
    case VBool(b) => if b then "True" else "False"
    case VInt(i) => IntToString(i)
    case VStr(s) => s
  }

  /** The conversion of the add command: "int", "bool", and anything else as "str". None is
      the ValueError or TypeError of the conversion. */
  function Coerce(value: Value, valueType: string): (r: Option<Value>)
    requires valueType != "float"
    ensures valueType == "int" && value.VBool? ==> r == Some(VInt(if value.b then 1 else 0))
    ensures valueType == "int" && value.VInt? ==> r == Some(value)
    ensures valueType == "int" && value.VStr? ==>
              r == (match ParseInt(value.s) case Some(i) => Some(VInt(i)) case None => None)
    ensures valueType == "bool" && value.VBool? ==> r == Some(value)
    ensures valueType == "bool" && value.VStr? ==>
              r == Some(VBool(Lower(value.s) in ["true", "1", "yes"]))
    ensures valueType == "bool" && !value.VBool? && !value.VStr? ==> r == Some(VBool(Truthy(value)))
    ensures valueType != "int" && valueType != "bool" && r.Some? ==> r == Some(VStr(Str(value)))
    ensures r.None? <==>
              || (valueType == "int" && (value.VNull? || (value.VStr? && ParseInt(value.s).None?)))
              || (valueType != "int" && valueType != "bool" && value.VInt? && DigitCount(value.i) > MaxStrDigits)
  {
    if valueType == "int" then
      match value
      case VNull => None
      case VBool(b) => Some(VInt(if b then 1 else 0))
      case VInt(i) => Some(VInt(i))
      case VStr(s) => match ParseInt(s) case Some(i) => Some(VInt(i)) case None => None
    else if valueType == "bool" then
      match value
      case VBool(b) => Some(VBool(b))
      case VStr(s) => Some(VBool(TrueWord(s)))
      case _ => Some(VBool(Truthy(value)))
    else if value.VInt? && DigitCount(value.i) > MaxStrDigits then None
    else Some(VStr(Str(value)))
  }

  /** get: the whole state without a key; else the key's value, or a not-found reply. */
  function Get(state: map<string, Value>, key: Option<string>): (r: Reply)
    ensures r.WholeState? <==> key.None?
    ensures key.None? ==> r == WholeState(state)
    ensures r.Found? <==> key.Some? && key.value in state
    ensures r.Found? ==> r.value == state[key.value]
    ensures r.NotFound? ==> r.error == NotFoundMessage(key.value)
  {
    match key
    case None => WholeState(state)
    case Some(k) => if k in state then Found(state[k]) else NotFound(NotFoundMessage(k))
  }

  /** add: the key and the value are required; the value is converted to the requested type
      ("str" when none is given) and stored under the key. */
  function Add(state: map<string, Value>, key: Option<string>, value: Value, valueType: Option<string>): (r: Outcome)
    requires valueType != Some("float")
    ensures r.reply == Ok <==>
              key.Some? && !value.VNull? && Coerce(value, TypeName(valueType)).Some?
    ensures r.reply == Ok ==>
              r.state == state[key.value := Coerce(value, TypeName(valueType)).value]
    ensures r.reply != Ok ==> r.state == state
    ensures key.None? ==> r.reply == Failed(MissingKey)
    ensures key.Some? && value.VNull? ==> r.reply == Failed(MissingValue)
  {
    if key.None? then Outcome(state, Failed(MissingKey))
    else if value.VNull? then Outcome(state, Failed(MissingValue))
    else
      var typ := TypeName(valueType);
      match Coerce(value, typ)
      case Some(v) => Outcome(state[key.value := v], Ok)
      case None => Outcome(state, ConversionFailed(typ))
  }

  /** The type field with its default. */
  function TypeName(valueType: Option<string>): string {
    match valueType case Some(t) => t case None => "str"
  }

  /** del: removes the key; deleting an absent key is not an error but carries a warning. */
  function Delete(state: map<string, Value>, key: Option<string>): (r: Outcome)
    ensures key.None? ==> r == Outcome(state, Failed(MissingKey))
    ensures key.Some? ==> r.state == state - {key.value}
    ensures key.Some? ==> (r.reply == Ok <==> key.value in state)
    ensures key.Some? && key.value !in state ==> r.reply == OkWithWarning(NotFoundMessage(key.value))
  {
    match key
    case None => Outcome(state, Failed(MissingKey))
    case Some(k) =>
      if k in state then Outcome(map j | j in state && j != k :: state[j], Ok)
      else Outcome(state, OkWithWarning(NotFoundMessage(k)))
  }

  /** One command on the STATE topic: the new state and the reply published, if any (an
      unknown command is only logged). */
  function Dispatch(state: map<string, Value>, c: Command): (r: (map<string, Value>, Option<Reply>))
    requires c.valueType != Some("float")
    ensures c.cmd != Some("add") && c.cmd != Some("del") ==> r.0 == state
    ensures r.1.None? <==> c.cmd !in {Some("get"), Some("add"), Some("del"), Some("help")}
  {
    match c.cmd
    case Some("get") => (state, Some(Get(state, c.key)))
    case Some("add") => var o := Add(state, c.key, c.value, c.valueType); (o.state, Some(o.reply))
    case Some("del") => var o := Delete(state, c.key); (o.state, Some(o.reply))
    case Some("help") => (state, Some(HelpText))
    case _ => (state, None)
  }

  // ---------------------------------------------------------------- properties

  /** A value added under a key is what get then returns for it. */
  lemma AddThenGet(state: map<string, Value>, key: string, value: Value, valueType: Option<string>)
    requires valueType != Some("float")
    requires Add(state, Some(key), value, valueType).reply == Ok
    ensures Get(Add(state, Some(key), value, valueType).state, Some(key)) ==
              Found(Coerce(value, TypeName(valueType)).value)
  {
  }

  /** Adding the same value twice leaves the state as adding it once. */
  lemma AddIdempotent(state: map<string, Value>, key: Option<string>, value: Value, valueType: Option<string>)
    requires valueType != Some("float")
    ensures var once := Add(state, key, value, valueType);
            Add(once.state, key, value, valueType) == once
  {
  }

  /** add touches no other key. */
  lemma AddKeepsOtherKeys(state: map<string, Value>, key: string, other: string, value: Value, valueType: Option<string>)
    requires valueType != Some("float") && other != key
    ensures Get(Add(state, Some(key), value, valueType).state, Some(other)) == Get(state, Some(other))
  {
  }

  /** After a delete the key is gone; a second delete only warns. */
  lemma DeleteThenGet(state: map<string, Value>, key: string)
    ensures Get(Delete(state, Some(key)).state, Some(key)) == NotFound(NotFoundMessage(key))
    ensures var once := Delete(state, Some(key)).state;
            Delete(once, Some(key)) == Outcome(once, OkWithWarning(NotFoundMessage(key)))
  {
  }

  /** Deleting what was just added restores a state that lacked the key. */
  lemma DeleteUndoesAdd(state: map<string, Value>, key: string, value: Value, valueType: Option<string>)
    requires valueType != Some("float") && key !in state
    ensures Delete(Add(state, Some(key), value, valueType).state, Some(key)).state == state
  {
  }

  /** An integer added as "str" and then read back as "int" is the same integer; one with more
      digits than the limit cannot be added as "str" at all. */
  lemma IntTextRoundTrip(i: int)
    ensures DigitCount(i) <= MaxStrDigits ==>
              Coerce(VInt(i), "str") == Some(VStr(IntToString(i))) &&
              Coerce(VStr(IntToString(i)), "int") == Some(VInt(i))
    ensures DigitCount(i) > MaxStrDigits ==> Coerce(VInt(i), "str") == None
  {
    ParseIntOfIntToString(i);
  }

  /** A bool written out by str() reads back as the same bool. */
  lemma BoolTextRoundTrip(b: bool)
    ensures Coerce(VStr(Str(VBool(b))), "bool") == Some(VBool(b))
  {
    assert Lower("True") == "true";
    assert Lower("False") == "false";
  }

  /** Any string converts to true exactly when it spells true, 1 or yes, in any letter case:
      upper-casing it first gives the same bool. */
  lemma BoolWords(s: string)
    ensures Coerce(VStr(s), "bool") == Some(VBool(Lower(s) == "true" || Lower(s) == "1" || Lower(s) == "yes"))
    ensures Coerce(VStr(s), "bool") == Coerce(VStr(Upper(s)), "bool")
  {
    LowerOfUpper(s);
  }

  // ---------------------------------------------------------------- the process

  /** The StateManager object: its dictionary and the replies it has published. */
  class StateManager {
    var state: map<string, Value>
    var published: seq<Reply>

    constructor ()
      ensures state == map[] && published == []
    {
      state := map[];
      published := [];
    }

    method HandleGet(key: Option<string>)
      modifies this
      ensures state == old(state)
      ensures published == old(published) + [Get(state, key)]
    {
      var result: Reply;
      if key.None? {
        result := WholeState(state);
      } else if key.value in state {
        result := Found(state[key.value]);
      } else {
        result := NotFound(NotFoundMessage(key.value));
      }
      published := published + [result];
    }

    method HandleAdd(key: Option<string>, value: Value, valueType: Option<string>)
      requires valueType != Some("float")
      modifies this
      ensures state == Add(old(state), key, value, valueType).state
      ensures published == old(published) + [Add(old(state), key, value, valueType).reply]
    {
      if key.None? {
        published := published + [Failed(MissingKey)];
        return;
      }
      if value.VNull? {
        published := published + [Failed(MissingValue)];
        return;
      }
      var typ := TypeName(valueType);
      var converted := Coerce(value, typ);
      if converted.None? {
        published := published + [ConversionFailed(typ)];
        return;
      }
      state := state[key.value := converted.value];
      published := published + [Ok];
    }

    method HandleDelete(key: Option<string>)
      modifies this
      ensures state == Delete(old(state), key).state
      ensures published == old(published) + [Delete(old(state), key).reply]
    {
      if key.None? {
        published := published + [Failed(MissingKey)];
        return;
      }
      var k := key.value;
      if k in state {
        state := map j | j in state && j != k :: state[j];
        published := published + [Ok];
      } else {
        published := published + [OkWithWarning(NotFoundMessage(k))];
      }
    }

    method HandleMessage(c: Command)
      requires c.valueType != Some("float")
      modifies this
      ensures state == Dispatch(old(state), c).0
      ensures published == old(published) + match Dispatch(old(state), c).1 case Some(r) => [r] case None => []
    {
      match c.cmd {
        case Some("get") => HandleGet(c.key);
        case Some("add") => HandleAdd(c.key, c.value, c.valueType);
        case Some("del") => HandleDelete(c.key);
        case Some("help") => published := published + [HelpText];
        case _ =>
      }
    }
  }
}
