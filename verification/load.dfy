/** The per-record part of `load` in src/index.js: each command record
    gets its id and exec checked and its aliases, channels, canUse and
    cooldown properties normalised through defObjVal at the locations the
    handler's `customProps` name, and is then stored in the command table
    under its lower-cased id. Reading the files is left to the caller, who
    passes each file name with the value its module exports. */
module Loader {
  import opened Base
  import opened Utils

  /** Where a command record keeps each property. */
  datatype CustomProps = CustomProps(id: string, exec: string, aliases: string, channels: string,
                                     canUse: string, cooldown: string)

  /** `customProps` as supplied; `None` is an absent key. */
  datatype RawProps = RawProps(id: Option<string>, exec: Option<string>, aliases: Option<string>,
                               channels: Option<string>, canUse: Option<string>, cooldown: Option<string>)

  const DefaultProps := CustomProps("id", "exec", "aliases", "channels", "canUse", "cooldown")

  /** `defaults(customProps, {...})` in the handler: each absent location is
      the property of the same name. */
  function FillProps(raw: RawProps): (r: CustomProps)
    ensures raw == RawProps(None, None, None, None, None, None) ==> r == DefaultProps
    ensures (raw.id.Some? ==> r.id == raw.id.value) && (raw.id.None? ==> r.id == "id")
    ensures (raw.exec.Some? ==> r.exec == raw.exec.value) && (raw.exec.None? ==> r.exec == "exec")
    ensures (raw.aliases.Some? ==> r.aliases == raw.aliases.value) && (raw.aliases.None? ==> r.aliases == "aliases")
    ensures (raw.channels.Some? ==> r.channels == raw.channels.value) && (raw.channels.None? ==> r.channels == "channels")
    ensures (raw.canUse.Some? ==> r.canUse == raw.canUse.value) && (raw.canUse.None? ==> r.canUse == "canUse")
    ensures (raw.cooldown.Some? ==> r.cooldown == raw.cooldown.value) && (raw.cooldown.None? ==> r.cooldown == "cooldown")
  {
    CustomProps(raw.id.GetOr("id"), raw.exec.GetOr("exec"), raw.aliases.GetOr("aliases"),
                raw.channels.GetOr("channels"), raw.canUse.GetOr("canUse"), raw.cooldown.GetOr("cooldown"))
  }

  // The value functions handed to defObjVal.

  /** `(v) => v || undefined` */
  function OrUndefined(v: Value): (r: Value)
    ensures Truthy(v) ==> r == v
    ensures !Truthy(v) ==> r == Undefined
  {
    if Truthy(v) then v else Undefined
  }

  /** The string items of an array, lower-cased; every other item is
      dropped. */
  function LowerStrings(items: seq<Value>): (r: seq<Value>)
    ensures forall i :: 0 <= i < |r| ==> r[i].Str? && Lower(r[i].s) == r[i].s
    ensures forall i :: 0 <= i < |items| && items[i].Str? ==> Str(Lower(items[i].s)) in r
    ensures forall j :: 0 <= j < |r| ==> exists i :: 0 <= i < |items| && items[i].Str? && r[j] == Str(Lower(items[i].s))
    ensures |r| <= |items|
  {
    if items == [] then []
    else if items[0].Str? then
      LowerIdempotent(items[0].s);
      [Str(Lower(items[0].s))] + LowerStrings(items[1..])
    else LowerStrings(items[1..])
  }

  lemma {:induction false} LowerIdempotent(s: string)
    ensures Lower(Lower(s)) == Lower(s)
  {
    var l := Lower(s);
    LowerAt(s);
    LowerAt(l);
    forall i | 0 <= i < |l|
      ensures LowerChar(l[i]) == l[i]
    {
      LowerCharIdempotent(s[i]);
    }
  }

  /** The aliases: the lower-cased strings of an array, or none at all. */
  function NormaliseAliases(v: Value): (r: Value)
    ensures r.Arr? && r.extra == map[]
    ensures forall i :: 0 <= i < |r.items| ==> r.items[i].Str? && Lower(r.items[i].s) == r.items[i].s
    ensures !v.Arr? ==> r.items == []
    ensures v.Arr? ==> forall i :: 0 <= i < |v.items| && v.items[i].Str? ==> Str(Lower(v.items[i].s)) in r.items
  {
    if v.Arr? then Arr(LowerStrings(v.items), map[]) else Arr([], map[])
  }

  predicate IsChannelKind(v: Value) {
    v == Str("ANY") || v == Str("DM") || v == Str("GUILD_TEXT")
  }

  /** The channels: one of 'ANY', 'DM', 'GUILD_TEXT', else 'ANY'. */
  function NormaliseChannels(v: Value): (r: Value)
    ensures IsChannelKind(r)
    ensures IsChannelKind(v) ==> r == v
  {
    if IsChannelKind(v) then v else Str("ANY")
  }

  /** The canUse rules: an object other than `null`, else `{}`. */
  function NormaliseRules(v: Value): (r: Value)
    ensures r.Arr? || r.Obj?
    ensures (v.Arr? || v.Obj?) ==> r == v
  {
    if v.Arr? || v.Obj? then v else Obj(map[], "")
  }

  /** The cooldown: whether the value is a `Cooldown` instance. */
  function IsCooldown(v: Value): (r: Value)
    ensures r.Bool? && (r.b <==> v.Obj? && v.cls == "Cooldown")
  {
    Bool(v.Obj? && v.cls == "Cooldown")
  }

  function ProperValuesError(props: CustomProps): string {
    "TypeError: Either command." + props.id + " or command." + props.exec + " are not their proper values."
  }

  /** `if (category && !command.category) command.category = editCategory(category)` */
  function WithCategory(c: Value, category: Option<string>, edit: string -> string): Value {
    if category.Some? && category.value != "" && HasProperties(c) && !Truthy(Get(c, "category"))
    then Put(c, "category", Str(edit(category.value)))
    else c
  }

  /** The normalisation steps after the id and exec checks, in order. */
  function Finish(c: Value, props: CustomProps): Result<Value, string> {
    match DefObj(c, props.aliases, NormaliseAliases)
    case Err(e) => Err(e)
    case Ok((c1, _)) =>
      match DefObj(c1, props.channels, NormaliseChannels)
      case Err(e) => Err(e)
      case Ok((c2, _)) =>
        match DefObj(c2, props.canUse, NormaliseRules)
        case Err(e) => Err(e)
        case Ok((c3, _)) =>
          match DefObj(c3, props.cooldown, IsCooldown)
          case Err(e) => Err(e)
          case Ok((c4, _)) => Ok(c4)
  }

  /** One record: the key it is stored under and the record as stored, or
      the error that makes `load` skip it. */
  function Normalised(command: Value, props: CustomProps, category: Option<string>,
                      edit: string -> string): Result<(string, Value), string>
  {
    match DefObj(command, props.id, OrUndefined)
    case Err(e) => Err(e)
    case Ok((c1, id)) =>
      match DefObj(c1, props.exec, OrUndefined)
      case Err(e) => Err(e)
      case Ok((c2, exec)) =>
        if !id.Str? || !exec.Func? then Err(ProperValuesError(props))
        else
          match Finish(WithCategory(c2, category, edit), props)
          case Err(e) => Err(e)
          case Ok(c) => Ok((Lower(id.s), c))
  }

  /** The body of the `try` in `load` for one record. */
  method NormaliseRecord(command: Value, props: CustomProps, category: Option<string>, edit: string -> string)
    returns (r: Result<(string, Value), string>)
    ensures r == Normalised(command, props, category, edit)
  {
    var idStep := DefObjVal(command, props.id, OrUndefined);
    if idStep.Err? {
      return Err(idStep.error);
    }
    var (c1, id) := idStep.value;
    var execStep := DefObjVal(c1, props.exec, OrUndefined);
    if execStep.Err? {
      return Err(execStep.error);
    }
    var (c2, exec) := execStep.value;
    if !id.Str? || !exec.Func? {
      return Err(ProperValuesError(props));
    }
    var c := WithCategory(c2, category, edit);
    var step := DefObjVal(c, props.aliases, NormaliseAliases);
    if step.Err? {
      return Err(step.error);
    }
    c := step.value.0;
    step := DefObjVal(c, props.channels, NormaliseChannels);
    if step.Err? {
      return Err(step.error);
    }
    c := step.value.0;
    step := DefObjVal(c, props.canUse, NormaliseRules);
    if step.Err? {
      return Err(step.error);
    }
    c := step.value.0;
    step := DefObjVal(c, props.cooldown, IsCooldown);
    if step.Err? {
      return Err(step.error);
    }
    c := step.value.0;
    return Ok((Lower(id.s), c));
  }

  // ---------------------------------------------------------------------
  // The command table

  /** The command table: a Collection, kept in insertion order. */
  type Table = seq<(string, Value)>

  predicate DistinctKeys(t: Table) {
    forall i, j :: 0 <= i < j < |t| ==> t[i].0 != t[j].0
  }

  function KeyIndex(t: Table, k: string): (r: Option<nat>)
    ensures r.Some? ==> r.value < |t| && t[r.value].0 == k
    ensures r.None? ==> forall i :: 0 <= i < |t| ==> t[i].0 != k
  {
    if t == [] then None
    else if t[0].0 == k then Some(0)
    else match KeyIndex(t[1..], k)
      case None => None
      case Some(i) => Some(i + 1)
  }

  /** `commands.set(k, v)`: a key already present keeps its place and gets
      the new record; a new key goes at the end. */
  function SetEntry(t: Table, k: string, v: Value): (r: Table)
    ensures |r| == if KeyIndex(t, k).Some? then |t| else |t| + 1
  {
    match KeyIndex(t, k)
    case Some(i) => t[i := (k, v)]
    case None => t + [(k, v)]
  }

  /** With distinct keys, the entry holding `k` is the one found. */
  lemma {:induction false} KeyIndexAt(t: Table, i: nat, k: string)
    requires DistinctKeys(t) && i < |t| && t[i].0 == k
    ensures KeyIndex(t, k) == Some(i)
  {
    if i > 0 {
      assert t[0].0 != k;
      assert DistinctKeys(t[1..]) by {
        forall a, b | 0 <= a < b < |t[1..]| ensures t[1..][a].0 != t[1..][b].0 {
          assert t[1..][a] == t[a + 1] && t[1..][b] == t[b + 1];
        }
      }
      KeyIndexAt(t[1..], i - 1, k);
    }
  }

  /** Setting keeps the keys distinct, makes `k` map to `v`, and keeps
      every other entry in its place. */
  lemma SetEntryKeeps(t: Table, k: string, v: Value)
    requires DistinctKeys(t)
    ensures var r := SetEntry(t, k, v);
            DistinctKeys(r)
            && KeyIndex(r, k).Some? && r[KeyIndex(r, k).value] == (k, v)
            && (forall i :: 0 <= i < |t| && t[i].0 != k ==> r[i] == t[i])
            && |r| >= |t| && forall i :: 0 <= i < |t| ==> r[i].0 == t[i].0
  {
    var r := SetEntry(t, k, v);
    match KeyIndex(t, k)
    case Some(i) =>
      assert r == t[i := (k, v)];
      assert DistinctKeys(r);
      KeyIndexAt(r, i, k);
    case None =>
      assert r == t + [(k, v)];
      assert DistinctKeys(r);
      KeyIndexAt(r, |t|, k);
  }

  predicate EndsWithJs(name: string) {
    |name| >= 3 && name[|name| - 3..] == ".js"
  }

  /** One file: a name not ending in `.js` is passed over, a record that
      fails to normalise is skipped with a warning naming the file, and any
      other is set under its key. */
  function LoadStep(t: Table, file: (string, Value), props: CustomProps, category: Option<string>,
                    edit: string -> string): (Table, seq<string>)
  {
    if !EndsWithJs(file.0) then (t, [])
    else match Normalised(file.1, props, category, edit)
      case Err(_) => (t, [file.0])
      case Ok((k, c)) => (SetEntry(t, k, c), [])
  }

  /** The table and the warnings after loading `files` in order. */
  function LoadFrom(t: Table, files: seq<(string, Value)>, props: CustomProps, category: Option<string>,
                    edit: string -> string): (Table, seq<string>)
    decreases |files|
  {
    if files == [] then (t, [])
    else
      var (t1, w1) := LoadFrom(t, files[..|files| - 1], props, category, edit);
      var (t2, w2) := LoadStep(t1, files[|files| - 1], props, category, edit);
      (t2, w1 + w2)
  }

  method LoadFile(t: Table, file: (string, Value), props: CustomProps, category: Option<string>,
                  edit: string -> string) returns (t': Table, warned: seq<string>)
    ensures (t', warned) == LoadStep(t, file, props, category, edit)
  {
    if !EndsWithJs(file.0) {
      return t, [];
    }
    var r := NormaliseRecord(file.1, props, category, edit);
    if r.Ok? {
      return SetEntry(t, r.value.0, r.value.1), [];
    }
    return t, [file.0];
  }

  /** `load(commands, path, customProps, category, editCategory)` over the
      files of one folder. */
  method Load(commands: Table, files: seq<(string, Value)>, props: CustomProps, category: Option<string>,
              edit: string -> string) returns (t: Table, warned: seq<string>)
    ensures (t, warned) == LoadFrom(commands, files, props, category, edit)
  {
    t := commands;
    warned := [];
    var i := 0;
    while i < |files|
      invariant 0 <= i <= |files|
      invariant (t, warned) == LoadFrom(commands, files[..i], props, category, edit)
    {
      assert files[..i + 1][..i] == files[..i];
      var w1;
      t, w1 := LoadFile(t, files[i], props, category, edit);
      warned := warned + w1;
      i := i + 1;
    }
    assert files[..i] == files;
  }

  /** Loading keeps one entry per key, and a table entry is only ever
      replaced by a record of the same key: every position of the old
      table still holds its key. */
  lemma {:induction false} LoadKeepsDistinct(t: Table, files: seq<(string, Value)>, props: CustomProps,
                                             category: Option<string>, edit: string -> string)
    requires DistinctKeys(t)
    ensures DistinctKeys(LoadFrom(t, files, props, category, edit).0)
    ensures var r := LoadFrom(t, files, props, category, edit).0;
            |r| >= |t| && forall i :: 0 <= i < |t| ==> r[i].0 == t[i].0
    decreases |files|
  {
    if files != [] {
      var init := files[..|files| - 1];
      LoadKeepsDistinct(t, init, props, category, edit);
      LoadStepKeepsDistinct(LoadFrom(t, init, props, category, edit).0, files[|files| - 1], props, category, edit);
    }
  }

  lemma LoadStepKeepsDistinct(t: Table, file: (string, Value), props: CustomProps, category: Option<string>,
                              edit: string -> string)
    requires DistinctKeys(t)
    ensures DistinctKeys(LoadStep(t, file, props, category, edit).0)
    ensures var r := LoadStep(t, file, props, category, edit).0;
            |r| >= |t| && forall i :: 0 <= i < |t| ==> r[i].0 == t[i].0
  {
    if EndsWithJs(file.0) {
      match Normalised(file.1, props, category, edit)
      case Err(_) =>
      case Ok((k, c)) =>
        SetEntryKeeps(t, k, c);
    }
  }

  // ---------------------------------------------------------------------
  // What normalisation does to a record

  predicate PlainKey(k: string) {
    '[' !in k && '.' !in k
  }

  /** Locations that are six distinct single keys, as the defaults are. */
  predicate PlainProps(props: CustomProps) {
    var ks := [props.id, props.exec, props.aliases, props.channels, props.canUse, props.cooldown];
    (forall i :: 0 <= i < |ks| ==> PlainKey(ks[i]))
    && forall i, j :: 0 <= i < j < |ks| ==> ks[i] != ks[j]
  }

  lemma DefaultPropsPlain()
    ensures PlainProps(DefaultProps)
  {
    var ks := ["id", "exec", "aliases", "channels", "canUse", "cooldown"];
    assert forall i :: 0 <= i < |ks| ==> PlainKey(ks[i]);
    assert forall i, j :: 0 <= i < j < |ks| ==> ks[i] != ks[j];
  }

  /** defObjVal on a plain key the record lacks adds `val(undefined)`. */
  lemma AbsentKey(p: map<string, Value>, cls: string, k: string, val: Value -> Value)
    requires PlainKey(k) && k !in p
    ensures DefObj(Obj(p, cls), k, val) == Ok((Obj(p[k := val(Undefined)], cls), val(Undefined)))
  {
    assert Get(Obj(p, cls), k) == Undefined;
    DefObjPlainLeaf(Obj(p, cls), k, val);
  }

  /** defObjVal on a plain key whose value is not an object stores
      `val(value)`. */
  lemma PlainValueKey(p: map<string, Value>, cls: string, k: string, val: Value -> Value)
    requires PlainKey(k) && k in p && !IsObjectType(p[k])
    ensures DefObj(Obj(p, cls), k, val) == Ok((Obj(p[k := val(p[k])], cls), val(p[k])))
  {
    assert Get(Obj(p, cls), k) == p[k];
    DefObjPlainLeaf(Obj(p, cls), k, val);
  }

  /** A record without an id is refused with the TypeError naming both
      locations. */
  lemma MissingIdRefused(p: map<string, Value>, cls: string, props: CustomProps, category: Option<string>,
                         edit: string -> string)
    requires PlainProps(props)
    requires props.id !in p
    requires props.exec in p ==> !IsObjectType(p[props.exec])
    ensures Normalised(Obj(p, cls), props, category, edit) == Err(ProperValuesError(props))
  {
    var ks := [props.id, props.exec, props.aliases, props.channels, props.canUse, props.cooldown];
    assert PlainKey(ks[0]) && PlainKey(ks[1]) && ks[0] != ks[1];
    AbsentKey(p, cls, props.id, OrUndefined);
    var p1 := p[props.id := Undefined];
    if props.exec in p {
      PlainValueKey(p1, cls, props.exec, OrUndefined);
    } else {
      AbsentKey(p1, cls, props.exec, OrUndefined);
    }
  }

  /** The four normalisation steps on a record that has none of those
      properties. */
  lemma FinishPlain(p: map<string, Value>, cls: string, props: CustomProps)
    requires PlainProps(props)
    requires props.aliases !in p && props.channels !in p && props.canUse !in p && props.cooldown !in p
    ensures Finish(Obj(p, cls), props)
            == Ok(Obj(p[props.aliases := Arr([], map[])][props.channels := Str("ANY")]
                       [props.canUse := Obj(map[], "")][props.cooldown := Bool(false)], cls))
  {
    var ks := [props.id, props.exec, props.aliases, props.channels, props.canUse, props.cooldown];
    assert PlainKey(ks[2]) && PlainKey(ks[3]) && PlainKey(ks[4]) && PlainKey(ks[5]);
    assert ks[2] != ks[3] && ks[2] != ks[4] && ks[2] != ks[5] && ks[3] != ks[4] && ks[3] != ks[5] && ks[4] != ks[5];
    var p1 := p[props.aliases := Arr([], map[])];
    var p2 := p1[props.channels := Str("ANY")];
    var p3 := p2[props.canUse := Obj(map[], "")];
    AbsentKey(p, cls, props.aliases, NormaliseAliases);
    AbsentKey(p1, cls, props.channels, NormaliseChannels);
    AbsentKey(p2, cls, props.canUse, NormaliseRules);
    AbsentKey(p3, cls, props.cooldown, IsCooldown);
  }

  /** A plain record with a string id and a function exec and none of the
      other properties: the key is the lower-cased id, and the record gains
      no aliases, the channels 'ANY', empty rules and a false cooldown. */
  lemma PlainRecord(p: map<string, Value>, cls: string, props: CustomProps, id: string, exec: Value,
                    edit: string -> string)
    requires PlainProps(props)
    requires props.id in p && p[props.id] == Str(id) && id != ""
    requires props.exec in p && p[props.exec] == exec && exec.Func?
    requires props.aliases !in p && props.channels !in p && props.canUse !in p && props.cooldown !in p
    ensures Normalised(Obj(p, cls), props, None, edit)
            == Ok((Lower(id), Obj(p[props.aliases := Arr([], map[])][props.channels := Str("ANY")]
                                   [props.canUse := Obj(map[], "")][props.cooldown := Bool(false)], cls)))
  {
    var ks := [props.id, props.exec, props.aliases, props.channels, props.canUse, props.cooldown];
    assert PlainKey(ks[0]) && PlainKey(ks[1]) && ks[0] != ks[1];
    var c0 := Obj(p, cls);
    PlainValueKey(p, cls, props.id, OrUndefined);
    assert p[props.id := Str(id)] == p;
    assert DefObj(c0, props.id, OrUndefined) == Ok((c0, Str(id)));
    PlainValueKey(p, cls, props.exec, OrUndefined);
    assert p[props.exec := exec] == p;
    assert DefObj(c0, props.exec, OrUndefined) == Ok((c0, exec));
    assert WithCategory(c0, None, edit) == c0;
    FinishPlain(p, cls, props);
  }

  /** Aliases given as an array are not normalised: defObjVal enters the
      array and writes an `aliases` property inside it, so the record keeps
      the original items, upper case and non-strings included. */
  lemma ArrayAliasesKept(p: map<string, Value>, cls: string, items: seq<Value>, extra: map<string, Value>)
    requires "aliases" in p && p["aliases"] == Arr(items, extra) && "aliases" !in extra
    ensures var r := DefObj(Obj(p, cls), "aliases", NormaliseAliases);
            r.Ok? && r.value.1 == Arr([], map[])
            && Get(r.value.0, "aliases") == Arr(items, extra["aliases" := Arr([], map[])])
  {
    var c := Obj(p, cls);
    DefObjObjectLeaf(c, "aliases", NormaliseAliases);
    assert !IsIndex("aliases") by {
      assert !IsDigit('a');
    }
    assert Get(Arr(items, extra), "aliases") == Undefined;
  }

  /** A cooldown that is an object (a `Cooldown` instance included) is left
      in place for the same reason; only a non-object cooldown is replaced
      by the boolean. */
  lemma CooldownObjectKept(p: map<string, Value>, cls: string, inner: map<string, Value>)
    requires "cooldown" in p && p["cooldown"] == Obj(inner, "Cooldown") && "cooldown" !in inner
    ensures var r := DefObj(Obj(p, cls), "cooldown", IsCooldown);
            r.Ok? && r.value.1 == Bool(false)
            && Get(r.value.0, "cooldown") == Obj(inner["cooldown" := Bool(false)], "Cooldown")
  {
    DefObjObjectLeaf(Obj(p, cls), "cooldown", IsCooldown);
  }
}
