/**
 * The common part of every storage driver: the settings it was built from,
 * the list of fields it selects, the name of the id column, and the cast of
 * any argument to a data item.
 */
module Drivers {
  import opened PhpValues
  import opened Wrappers
  import opened DataItems

  /** The part of a driver's state its setters maintain. */
  datatype DriverState = DriverState(uniqueId: string, fields: seq<string>)

  /** A new driver selects no fields and calls its id column "id". */
  const Defaults := DriverState("id", [])

  /** The setters a driver of this class has; a subclass may add more. */
  const SetterNames: seq<string> := ["setUniqueId", "setFields"]

  /** Word delimiters of `ucwords`: space, tab, CR, LF, form feed, vertical tab. */
  predicate IsWordDelimiter(c: char) {
    c == ' ' || c == '\t' || c == '\r' || c == '\n' || c == '\U{C}' || c == '\U{B}'
  }

  function UpperAscii(c: char): (r: char)
    ensures 'a' <= c <= 'z' ==> 'A' <= r <= 'Z'
    ensures !('a' <= c <= 'z') ==> r == c
  {
    if 'a' <= c <= 'z' then (c as int - 32) as char else c
  }

  function UcWordsFrom(s: string, atWordStart: bool): (r: string)
    ensures |r| == |s|
  {
    if s == [] then []
    else [if atWordStart then UpperAscii(s[0]) else s[0]] + UcWordsFrom(s[1..], IsWordDelimiter(s[0]))
  }

  /** `ucwords`: the first character of the text and every character after a
      delimiter is upper-cased; nothing else changes. */
  function UcWords(s: string): (r: string)
    ensures |r| == |s|
    ensures s != [] ==> r[0] == UpperAscii(s[0])
  {
    UcWordsFrom(s, true)
  }

  /** Inside a word without delimiters, nothing is upper-cased. */
  lemma {:induction false} UcWordsInsideWord(s: string)
    requires forall i :: 0 <= i < |s| ==> !IsWordDelimiter(s[i])
    ensures UcWordsFrom(s, false) == s
  {
    if s != [] {
      UcWordsInsideWord(s[1..]);
    }
  }

  /** A key that is one word gets its first letter upper-cased. */
  lemma UcWordsOfWord(s: string)
    requires s != [] && forall i :: 0 <= i < |s| ==> !IsWordDelimiter(s[i])
    ensures UcWords(s) == [UpperAscii(s[0])] + s[1..]
  {
    UcWordsInsideWord(s[1..]);
  }

  lemma SetterForUniqueId()
    ensures SetterFor("uniqueId") == "setUniqueId"
  {
    UcWordsOfWord("uniqueId");
  }

  /** The name of the setter a setting key is dispatched to. */
  function SetterFor(key: string): string {
    "set" + UcWords(key)
  }

  /** A PHP list of strings (keys 0 .. n-1, every value a string) as a sequence. */
  function StringList(v: Value): (r: Option<seq<string>>)
    ensures r.Some? <==> v.Arr? && forall i :: 0 <= i < |v.m| ==> IntKey(i) in v.m && v.m[IntKey(i)].Str?
    ensures r.Some? ==> |r.value| == |v.m| && forall i :: 0 <= i < |v.m| ==> v.m[IntKey(i)] == Str(r.value[i])
  {
    if v.Arr? && forall i :: 0 <= i < |v.m| ==> IntKey(i) in v.m && v.m[IntKey(i)].Str? then
      Some(seq(|v.m|, i requires 0 <= i < |v.m| => v.m[IntKey(i)].s))
    else None
  }

  /** The effect of one constructor setting: the key is turned into a setter
      name, and the setter runs when the class has it (the comparison is
      case-sensitive). The id column takes a string, the field list a list
      of strings; other values leave the state as it is. */
  function ApplySetting(st: DriverState, setting: (string, Value)): (r: DriverState)
    ensures SetterFor(setting.0) !in SetterNames ==> r == st
    ensures SetterFor(setting.0) != "setUniqueId" ==> r.uniqueId == st.uniqueId
    ensures SetterFor(setting.0) != "setFields" ==> r.fields == st.fields
  {
    var name := SetterFor(setting.0);
    if name == "setUniqueId" && setting.1.Str? then st.(uniqueId := setting.1.s)
    else if name == "setFields" && StringList(setting.1).Some? then st.(fields := StringList(setting.1).value)
    else st
  }

  /** The settings applied in the order they are given. */
  function ApplyAll(st: DriverState, settings: seq<(string, Value)>): DriverState {
    if settings == [] then st
    else ApplySetting(ApplyAll(st, settings[..|settings| - 1]), settings[|settings| - 1])
  }

  /** The settings that name a setter of the class. */
  function Dispatched(settings: seq<(string, Value)>): (r: seq<(string, Value)>)
    ensures forall s :: s in r ==> s in settings && SetterFor(s.0) in SetterNames
  {
    if settings == [] then []
    else
      var init := Dispatched(settings[..|settings| - 1]);
      var last := settings[|settings| - 1];
      if SetterFor(last.0) in SetterNames then init + [last] else init
  }

  /** Settings without a matching setter have no effect, wherever they stand. */
  lemma {:induction false} UnmatchedSettingsIgnored(st: DriverState, settings: seq<(string, Value)>)
    ensures ApplyAll(st, Dispatched(settings)) == ApplyAll(st, settings)
  {
    if settings != [] {
      var init := settings[..|settings| - 1];
      var last := settings[|settings| - 1];
      UnmatchedSettingsIgnored(st, init);
      if SetterFor(last.0) in SetterNames {
        var d := Dispatched(init) + [last];
        assert d[..|d| - 1] == Dispatched(init);
      }
    }
  }

  /** Without a setting for the id column, it keeps its name. */
  lemma {:induction false} UniqueIdKept(st: DriverState, settings: seq<(string, Value)>)
    requires forall s :: s in settings ==> SetterFor(s.0) != "setUniqueId"
    ensures ApplyAll(st, settings).uniqueId == st.uniqueId
  {
    if settings != [] {
      var init := settings[..|settings| - 1];
      assert forall s :: s in init ==> s in settings;
      UniqueIdKept(st, init);
      assert settings[|settings| - 1] in settings;
    }
  }

  /** The last string given for the id column wins. */
  lemma {:induction false} LastUniqueIdWins(st: DriverState, settings: seq<(string, Value)>, k: string, rest: seq<(string, Value)>)
    requires forall s :: s in rest ==> SetterFor(s.0) != "setUniqueId"
    ensures ApplyAll(st, settings + [("uniqueId", Str(k))] + rest).uniqueId == k
    decreases |rest|
  {
    var all := settings + [("uniqueId", Str(k))] + rest;
    if rest == [] {
      assert all[..|all| - 1] == settings;
      SetterForUniqueId();
    } else {
      var shorter := rest[..|rest| - 1];
      assert forall s :: s in shorter ==> s in rest;
      LastUniqueIdWins(st, settings, k, shorter);
      assert all[..|all| - 1] == settings + [("uniqueId", Str(k))] + shorter;
      assert all[|all| - 1] in rest;
    }
  }

  /** A driver built without settings uses "id" as its id column. */
  lemma DefaultUniqueId(settings: seq<(string, Value)>)
    requires forall s :: s in settings ==> SetterFor(s.0) != "setUniqueId"
    ensures ApplyAll(Defaults, settings).uniqueId == "id"
  {
    UniqueIdKept(Defaults, settings);
  }

  /** What `create` is given: a data item, another object (seen through its
      public properties), or a plain value. */
  datatype CreateArg = ItemArg(item: DataItem) | ObjectArg(vars: Attrs) | ValueArg(v: Value)

  /** The array a new item is built from: a numeric value becomes the id,
      an array is used as it is; any other value gives an empty item. JSON
      text is passed as the `Arr` it decodes to, so a `Str` here is text
      that `json_decode` does not turn into an array. */
  function CreateInput(arg: CreateArg, uniqueId: string): (r: Attrs)
    requires !arg.ItemArg?
    ensures arg.ValueArg? && IsNumeric(arg.v) ==> r == map[StrKey(uniqueId) := Int(IntVal(arg.v))]
    ensures arg.ObjectArg? ==> r == arg.vars
    ensures arg.ValueArg? && arg.v.Arr? ==> r == arg.v.m
    ensures arg.ValueArg? && !IsNumeric(arg.v) && !arg.v.Arr? ==> r == map[]
  {
    match arg
    case ObjectArg(vars) => vars
    case ValueArg(v) =>
      if IsNumeric(v) then map[StrKey(uniqueId) := Int(IntVal(v))]
      else if v.Arr? then v.m
      else map[]
  }

  /** A numeric argument gives an item with that number as its id and no
      attributes. */
  lemma CreateFromNumber(v: Value, uniqueId: string)
    requires IsNumeric(v)
    ensures InitialId(Unwrap(CreateInput(ValueArg(v), uniqueId), uniqueId, false), uniqueId) == Int(IntVal(v))
    ensures InitialAttributes(Unwrap(CreateInput(ValueArg(v), uniqueId), uniqueId, false), uniqueId) == map[]
  {
  }

  class Driver {
    var settings: seq<(string, Value)>
    var fields: seq<string>
    var uniqueId: string

    function State(): DriverState
      reads this
    {
      DriverState(uniqueId, fields)
    }

    constructor (args: seq<(string, Value)>)
      ensures settings == args
      ensures State() == ApplyAll(Defaults, args)
    {
      fields := [];
      uniqueId := "id";
      settings := [];
      new;
      var i := 0;
      while i < |args|
        invariant 0 <= i <= |args|
        invariant State() == ApplyAll(Defaults, args[..i])
      {
        var (key, value) := args[i];
        var name := "set" + UcWords(key);
        if name in SetterNames {
          if name == "setUniqueId" && value.Str? {
            SetUniqueId(value.s);
          } else if name == "setFields" && StringList(value).Some? {
            var _ := SetFields(StringList(value).value);
          }
        }
        assert args[..i + 1][..i] == args[..i];
        i := i + 1;
      }
      assert args[..i] == args;
      settings := args;
    }

    method SetUniqueId(uid: string)
      modifies this
      ensures uniqueId == uid && fields == old(fields) && settings == old(settings)
    {
      uniqueId := uid;
    }

    /** The id column of the driver's state: the one construction's
        settings fold to, or the last one `setUniqueId` was given. */
    function GetUniqueId(): (r: string)
      reads this
      ensures r == State().uniqueId
    {
      uniqueId
    }

    method SetFields(fs: seq<string>) returns (r: seq<string>)
      modifies this
      ensures fields == fs && r == fs
      ensures uniqueId == old(uniqueId) && settings == old(settings)
    {
      fields := fs;
      r := fields;
    }

    /** The field list of the driver's state: the one construction's
        settings fold to, or the last one `setFields` was given. */
    function GetFields(): (r: seq<string>)
      reads this
      ensures r == State().fields
    {
      fields
    }

    /** The fields the store declares; this driver declares exactly the
        fields it selects. */
    function GetStoreFields(): (r: seq<string>)
      reads this
      ensures r == GetFields()
    {
      GetFields()
    }

    /** The id of the last inserted row, which this driver does not track. */
    function GetLastInsertId(): (r: int)
      ensures r == 0
    {
      0
    }

    /** Casts the argument to a data item: an item is returned as it is,
        anything else becomes a new item keyed by this driver's id column. */
    method Create(arg: CreateArg) returns (item: DataItem)
      ensures arg.ItemArg? ==> item == arg.item
      ensures !arg.ItemArg? ==> fresh(item) && item.uniqueIdField == uniqueId
      ensures !arg.ItemArg? ==> item.id == InitialId(CreateInput(arg, uniqueId), uniqueId)
      ensures !arg.ItemArg? ==> item.attributes == InitialAttributes(CreateInput(arg, uniqueId), uniqueId)
    {
      if arg.ItemArg? {
        item := arg.item;
      } else {
        item := new DataItem(CreateInput(arg, uniqueId), uniqueId, false);
      }
    }
  }
}
