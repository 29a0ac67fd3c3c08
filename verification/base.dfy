/** Shared vocabulary: optional values, results, the JavaScript values the
    handler stores in command records and argument maps, the chat message
    record that replaces the platform's message object, and the few string
    primitives (lower-casing, whitespace, trimming) the handler relies on. */
module Base {

  datatype Option<+T> = None | Some(value: T) {
    function GetOr(default: T): T {
      match this
      case Some(v) => v
      case None => default
    }
  }

  datatype Result<+T, +E> = Ok(value: T) | Err(error: E)

  /** A JavaScript value, as far as the handler inspects it. Functions, arrays
      and objects carry their own properties; `cls` names the constructor an
      object was made by ("" for a plain object literal), which is all that
      `instanceof` looks at. */
  datatype Value =
    | Undefined
    | Null
    | NaN
    | Bool(b: bool)
    | Num(n: int)
    | Str(s: string)
    | Func(name: string, fprops: map<string, Value>)
    | Arr(items: seq<Value>, extra: map<string, Value>)
    | Obj(props: map<string, Value>, cls: string)

  /** JavaScript truthiness: `undefined`, `null`, `NaN`, `false`, `0` and `''`
      are the falsy values. */
  predicate Truthy(v: Value) {
    match v
    case Undefined => false
    case Null => false
    case NaN => false
    case Bool(b) => b
    case Num(n) => n != 0
    case Str(s) => s != ""
    case _ => true
  }

  /** `typeof v === 'object'` (which holds for `null`, and not for functions). */
  predicate IsObjectType(v: Value) {
    v.Null? || v.Arr? || v.Obj?
  }

  /** Values that have properties: the right operand of `in` must be one of
      these, otherwise `in` throws a TypeError. */
  predicate HasProperties(v: Value) {
    v.Func? || v.Arr? || v.Obj?
  }

  predicate IsDigit(c: char) {
    '0' <= c <= '9'
  }

  predicate AllDigits(s: string) {
    forall i :: 0 <= i < |s| ==> IsDigit(s[i])
  }

  /** The decimal value of a string of digits. */
  function DigitsValue(s: string): (n: nat)
    requires AllDigits(s)
    ensures s == [] ==> n == 0
  {
    if s == [] then 0
    else DigitsValue(s[..|s| - 1]) * 10 + (s[|s| - 1] as int - '0' as int)
  }

  /** A canonical array index: "0", or digits without a leading zero. */
  predicate IsIndex(k: string) {
    |k| > 0 && AllDigits(k) && (k[0] == '0' ==> |k| == 1)
  }

  /** Own property test `k in v`, for a value that has properties. Arrays also
      own their in-range indices and `length`. */
  predicate Has(v: Value, k: string)
    requires HasProperties(v)
  {
    match v
    case Func(_, p) => k in p
    case Obj(p, _) => k in p
    case Arr(items, extra) =>
      (IsIndex(k) && DigitsValue(k) < |items|) || k in extra || k == "length"
  }

  /** Property read `v[k]`; a missing property reads as `undefined`. */
  function Get(v: Value, k: string): Value
    requires HasProperties(v)
  {
    match v
    case Func(_, p) => if k in p then p[k] else Undefined
    case Obj(p, _) => if k in p then p[k] else Undefined
    case Arr(items, extra) =>
      if IsIndex(k) && DigitsValue(k) < |items| then items[DigitsValue(k)]
      else if k in extra then extra[k]
      else if k == "length" then Num(|items|)
      else Undefined
  }

  /** Property write `v[k] = x`. Writing an in-range index replaces that
      element of an array; any other key written to an array is kept as an
      extra property. */
  function Put(v: Value, k: string, x: Value): (r: Value)
    requires HasProperties(v)
    ensures HasProperties(r) && Has(r, k) && Get(r, k) == x
    ensures !v.Arr? ==> forall j :: j != k && Has(v, j) ==> Has(r, j) && Get(r, j) == Get(v, j)
  {
    match v
    case Func(n, p) => Func(n, p[k := x])
    case Obj(p, c) => Obj(p[k := x], c)
    case Arr(items, extra) =>
      if IsIndex(k) && DigitsValue(k) < |items| then Arr(items[DigitsValue(k) := x], extra)
      else Arr(items, extra[k := x])
  }

  /** The chat message record: the platform's message object reduced to the
      fields the handler reads. `channelIsText` is the platform's
      `channel.isText()`; `memberRoles` is `None` outside a guild. */
  datatype Message = Message(
    id: string,
    authorId: string,
    authorIsBot: bool,
    channelId: string,
    channelType: string,
    channelIsText: bool,
    guildId: Option<string>,
    memberRoles: Option<seq<string>>,
    content: string)

  /** Something the handler does to the outside world: a channel send
      (`content` is `None` when the sent value is `undefined`), or a call of a
      user-supplied callback, recorded by name and the message it was given. */
  datatype Effect =
    | Send(channel: string, content: Option<string>)
    | Callback(name: string, messageId: string)

  /** `String.prototype.toLowerCase` on one character, for the upper-case
      letters of Basic Latin, Latin-1, Latin Extended-A (all but `İ`),
      Greek and Coptic, Cyrillic (U+0400 to U+052F) and Armenian. Each of
      these lowers to a single character of the same block, and every
      other character is kept. */
  function LowerChar(c: char): (r: char)
    ensures (c as int < 0x10000) == (r as int < 0x10000)
  {
    if c as int < 0x80 then (if 'A' <= c <= 'Z' then (c as int + 0x20) as char else c)
    else if c as int < 0x180 then LowerLatin(c)
    else if '\U{0370}' <= c <= '\U{03FF}' then LowerGreek(c)
    else if '\U{0400}' <= c <= '\U{052F}' then LowerCyrillic(c)
    else if '\U{0531}' <= c <= '\U{0556}' then (c as int + 0x30) as char
    else c
  }

  /** Latin-1 (U+0080 to U+00FF) and Latin Extended-A (U+0100 to U+017F). */
  function LowerLatin(c: char): (r: char)
    requires 0x80 <= c as int < 0x180
    ensures 0x80 <= r as int < 0x180
  {
    var n := c as int;
    if '\U{00C0}' <= c <= '\U{00DE}' && c != '\U{00D7}' then (n + 0x20) as char
    else if c == '\U{0178}' then '\U{00FF}'
    else if (('\U{0100}' <= c <= '\U{0137}' && c != '\U{0130}') || ('\U{014A}' <= c <= '\U{0177}')) && n % 2 == 0
    then (n + 1) as char
    else if (('\U{0139}' <= c <= '\U{0148}') || ('\U{0179}' <= c <= '\U{017E}')) && n % 2 == 1
    then (n + 1) as char
    else c
  }

  /** Greek and Coptic (U+0370 to U+03FF). */
  function LowerGreek(c: char): (r: char)
    requires 0x370 <= c as int <= 0x3FF
    ensures 0x370 <= r as int <= 0x3FF
  {
    var n := c as int;
    if '\U{0391}' <= c <= '\U{03AB}' && c != '\U{03A2}' then (n + 0x20) as char
    else if c == '\U{0370}' || c == '\U{0372}' || c == '\U{0376}' then (n + 1) as char
    else if c == '\U{037F}' then '\U{03F3}'
    else if c == '\U{0386}' then '\U{03AC}'
    else if '\U{0388}' <= c <= '\U{038A}' then (n + 0x25) as char
    else if c == '\U{038C}' then '\U{03CC}'
    else if '\U{038E}' <= c <= '\U{038F}' then (n + 0x3F) as char
    else if c == '\U{03CF}' then '\U{03D7}'
    else if '\U{03D8}' <= c <= '\U{03EE}' && n % 2 == 0 then (n + 1) as char
    else if c == '\U{03F4}' then '\U{03B8}'
    else if c == '\U{03F7}' || c == '\U{03FA}' then (n + 1) as char
    else if c == '\U{03F9}' then '\U{03F2}'
    else if '\U{03FD}' <= c <= '\U{03FF}' then (n - 0x82) as char
    else c
  }

  /** Cyrillic (U+0400 to U+052F). */
  function LowerCyrillic(c: char): (r: char)
    requires 0x400 <= c as int <= 0x52F
    ensures 0x400 <= r as int <= 0x52F
  {
    var n := c as int;
    if '\U{0410}' <= c <= '\U{042F}' then (n + 0x20) as char
    else if c <= '\U{040F}' then (n + 0x50) as char
    else if (('\U{0460}' <= c <= '\U{0481}') || ('\U{048A}' <= c <= '\U{04BF}') || '\U{04D0}' <= c) && n % 2 == 0
    then (n + 1) as char
    else if c == '\U{04C0}' then '\U{04CF}'
    else if '\U{04C1}' <= c <= '\U{04CE}' && n % 2 == 1 then (n + 1) as char
    else c
  }

  /** Accented Greek capitals lower to their accented small letters:
      "ΆΈ" becomes "άέ". */
  lemma GreekTonosLowers()
    ensures Lower("\U{0386}\U{0388}") == "\U{03AC}\U{03AD}"
    ensures Lower("\U{038F}") == "\U{03CE}"
  {
    assert LowerChar('\U{0386}') == '\U{03AC}';
    assert LowerChar('\U{0388}') == '\U{03AD}';
    assert LowerChar('\U{038F}') == '\U{03CE}';
  }

  lemma LowerLatinIdempotent(c: char)
    requires 0x80 <= c as int < 0x180
    ensures LowerLatin(LowerLatin(c)) == LowerLatin(c)
  {
  }

  lemma LowerGreekIdempotent(c: char)
    requires 0x370 <= c as int <= 0x3FF
    ensures LowerGreek(LowerGreek(c)) == LowerGreek(c)
  {
  }

  lemma LowerCyrillicIdempotent(c: char)
    requires 0x400 <= c as int <= 0x52F
    ensures LowerCyrillic(LowerCyrillic(c)) == LowerCyrillic(c)
  {
  }

  /** Lowering a lowered character changes nothing. */
  lemma LowerCharIdempotent(c: char)
    ensures LowerChar(LowerChar(c)) == LowerChar(c)
  {
    if 0x80 <= c as int < 0x180 {
      LowerLatinIdempotent(c);
    } else if 0x370 <= c as int <= 0x3FF {
      LowerGreekIdempotent(c);
    } else if 0x400 <= c as int <= 0x52F {
      LowerCyrillicIdempotent(c);
    }
  }

  /** `String.prototype.toLowerCase`, character by character. */
  function Lower(s: string): (r: string)
    ensures |r| == |s|
  {
    if s == [] then [] else [LowerChar(s[0])] + Lower(s[1..])
  }

  /** Each character of the lowered text is its character lowered. */
  lemma {:induction false} LowerAt(s: string)
    ensures forall i :: 0 <= i < |s| ==> Lower(s)[i] == LowerChar(s[i])
  {
    if s != [] {
      LowerAt(s[1..]);
      assert forall i :: 1 <= i < |s| ==> Lower(s)[i] == Lower(s[1..])[i - 1];
    }
  }

  /** Lower-casing keeps the JavaScript length, so cutting the lowered
      alias's length off the text cuts off the alias itself. */
  lemma {:induction false} LowerKeepsUtf16Length(s: string)
    ensures Utf16Length(Lower(s)) == Utf16Length(s)
  {
    if s != [] {
      assert Lower(s)[1..] == Lower(s[1..]);
      LowerKeepsUtf16Length(s[1..]);
    }
  }

  /** The JavaScript `length` of a string: the number of UTF-16 code units,
      two for each character outside the Basic Multilingual Plane. */
  function Utf16Length(s: string): (r: nat)
    ensures |s| <= r <= 2 * |s|
    ensures r == 0 <==> s == []
  {
    if s == [] then 0 else (if s[0] as int < 0x10000 then 1 else 2) + Utf16Length(s[1..])
  }

  function LowerAll(ss: seq<string>): (r: seq<string>)
    ensures |r| == |ss|
    ensures forall i :: 0 <= i < |ss| ==> r[i] == Lower(ss[i])
  {
    if ss == [] then [] else [Lower(ss[0])] + LowerAll(ss[1..])
  }

  /** The characters JavaScript's `\s` and `String.prototype.trim` treat as
      white space. */
  predicate IsSpace(c: char) {
    c == ' ' || c == '\t' || c == '\n' || c == '\r' || c == '\U{000B}' || c == '\U{000C}'
    || c == '\U{00A0}' || c == '\U{1680}' || ('\U{2000}' <= c <= '\U{200A}')
    || c == '\U{2028}' || c == '\U{2029}' || c == '\U{202F}' || c == '\U{205F}'
    || c == '\U{3000}' || c == '\U{FEFF}'
  }

  function TrimStart(s: string): (r: string)
    ensures |r| <= |s| && r == s[|s| - |r|..]
    ensures r == [] || !IsSpace(r[0])
    ensures forall i :: 0 <= i < |s| - |r| ==> IsSpace(s[i])
  {
    if s != [] && IsSpace(s[0]) then TrimStart(s[1..]) else s
  }

  function TrimEnd(s: string): (r: string)
    ensures |r| <= |s| && r == s[..|r|]
    ensures r == [] || !IsSpace(r[|r| - 1])
    ensures forall i :: |r| <= i < |s| ==> IsSpace(s[i])
  {
    if s != [] && IsSpace(s[|s| - 1]) then TrimEnd(s[..|s| - 1]) else s
  }

  /** `String.prototype.trim`. */
  function Trim(s: string): (r: string)
    ensures r == [] || (!IsSpace(r[0]) && !IsSpace(r[|r| - 1]))
  {
    TrimEnd(TrimStart(s))
  }

  /** Decimal rendering of a natural number, as string concatenation does it. */
  function NatToString(n: nat): (r: string)
    ensures |r| > 0 && AllDigits(r)
  {
    if n < 10 then [('0' as int + n) as char]
    else NatToString(n / 10) + [('0' as int + n % 10) as char]
  }

  /** Decimal rendering of an integer, with a leading minus sign when it is
      negative. */
  function IntToString(n: int): (r: string)
    ensures |r| > 0 && (n < 0 <==> r[0] == '-')
  {
    if n < 0 then "-" + NatToString(-n) else NatToString(n)
  }

  /** JavaScript string conversion, as a template literal applies it: an
      array joins its items with commas (an `undefined` or `null` item
      gives the empty text), a plain object is "[object Object]", and a
      function is represented by its name. */
  function JsText(v: Value): string
    decreases v, 1
  {
    match v
    case Undefined => "undefined"
    case Null => "null"
    case NaN => "NaN"
    case Bool(b) => if b then "true" else "false"
    case Num(n) => IntToString(n)
    case Str(s) => s
    case Func(name, _) => name
    case Arr(items, _) => ItemsText(items)
    case Obj(_, _) => "[object Object]"
  }

  /** `Array.prototype.join` with the default separator. */
  function ItemsText(items: seq<Value>): string
    decreases items, 0
  {
    if items == [] then ""
    else
      var first := if items[0].Undefined? || items[0].Null? then "" else JsText(items[0]);
      if |items| == 1 then first else first + "," + ItemsText(items[1..])
  }
}
