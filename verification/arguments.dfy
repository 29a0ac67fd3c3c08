/** The argument resolver of src/structures/Arguments.js: a command's
    argument definitions get their defaults, each definition's declared type
    is checked, and `getAll` walks the tokens of the message with a cursor,
    giving each definition the first declared type that parses and passes
    its range, a default, or the reply to a prompt. */
module Args {
  import opened Base
  import Utils

  // ---------------------------------------------------------------------
  // Definitions and their defaults

  /** A range end; JavaScript's -Infinity and Infinity are the defaults. */
  datatype Bound = NegInf | Fin(n: int) | PosInf

  /** `x >= b` */
  predicate AtLeast(x: int, b: Bound) {
    match b
    case NegInf => true
    case Fin(n) => x >= n
    case PosInf => false
  }

  /** `x <= b` */
  predicate AtMost(x: int, b: Bound) {
    match b
    case NegInf => false
    case Fin(n) => x <= n
    case PosInf => true
  }

  datatype Range = Range(min: Bound, max: Bound)

  /** A range as supplied; `None` is an absent key. */
  datatype RawRange = RawRange(min: Option<Bound>, max: Option<Bound>)

  /** An entry of an array type: a type name, a list of literals, or any
      other value. */
  datatype TypeEntry = EntryName(name: string) | EntryList(items: seq<string>) | EntryOther

  /** A declared type: a string, an array of entries, or any other value. */
  datatype DefType = Named(name: string) | Listed(entries: seq<TypeEntry>) | Unnamed

  datatype RawDefinition = RawDefinition(
    key: string,
    prompt: Option<Value>,
    typ: Option<DefType>,
    infinite: Option<bool>,
    defaultValue: Option<Value>,
    range: Option<RawRange>)

  /** A definition after the constructor filled in its defaults. */
  datatype Definition = Definition(
    key: string,
    prompt: Option<Value>,
    typ: DefType,
    infinite: bool,
    defaultValue: Option<Value>,
    range: Range)

  /** `defaults(def, defDefault)` followed by `defaults(def.range,
      rangeDefault)`: type 'string', not infinite and the unbounded range,
      each only where the definition leaves it out. */
  function WithDefaults(d: RawDefinition): (r: Definition)
    ensures r.key == d.key && r.prompt == d.prompt && r.defaultValue == d.defaultValue
    ensures d.typ.Some? ==> r.typ == d.typ.value
    ensures d.typ.None? ==> r.typ == Named("string")
    ensures r.infinite == (d.infinite.Some? && d.infinite.value)
    ensures d.range.None? ==> r.range == Range(NegInf, PosInf)
    ensures d.range.Some? ==> r.range == Range(d.range.value.min.GetOr(NegInf), d.range.value.max.GetOr(PosInf))
  {
    var range := match d.range
      case None => Range(NegInf, PosInf)
      case Some(rr) => Range(rr.min.GetOr(NegInf), rr.max.GetOr(PosInf));
    Definition(d.key, d.prompt, d.typ.GetOr(Named("string")), d.infinite.GetOr(false), d.defaultValue, range)
  }

  /** A definition written back with every key present. */
  function AsRaw(d: Definition): RawDefinition {
    RawDefinition(d.key, d.prompt, Some(d.typ), Some(d.infinite), d.defaultValue,
                  Some(RawRange(Some(d.range.min), Some(d.range.max))))
  }

  /** Defaults never overwrite a supplied key: filling a complete
      definition gives it back, so filling twice is filling once. */
  lemma DefaultsIdempotent(d: RawDefinition)
    ensures WithDefaults(AsRaw(WithDefaults(d))) == WithDefaults(d)
  {
    var r := WithDefaults(d);
    assert WithDefaults(AsRaw(r)).range == r.range;
  }

  /** How the tokens of the cut are found: the default pattern, or a
      custom pattern or function (whose empty result stands for `|| []`). */
  datatype Splitter = DefaultSplitter | CustomSplitter(split: string -> seq<string>)

  /** An `Arguments` instance. */
  datatype Arguments = Arguments(splitter: Splitter, definitions: seq<Definition>)

  function DefaultsAll(defs: seq<RawDefinition>): (r: seq<Definition>)
    ensures |r| == |defs| && forall i :: 0 <= i < |defs| ==> r[i] == WithDefaults(defs[i])
  {
    if defs == [] then [] else [WithDefaults(defs[0])] + DefaultsAll(defs[1..])
  }

  /** The constructor: the default splitter unless one is given, and every
      definition with its defaults. */
  function NewArguments(defs: seq<RawDefinition>, splitter: Option<Splitter>): (r: Arguments)
    ensures splitter.None? ==> r.splitter == DefaultSplitter
    ensures splitter.Some? ==> r.splitter == splitter.value
    ensures |r.definitions| == |defs|
    ensures forall i :: 0 <= i < |defs| ==> r.definitions[i] == WithDefaults(defs[i])
  {
    Arguments(splitter.GetOr(DefaultSplitter), DefaultsAll(defs))
  }

  // ---------------------------------------------------------------------
  // The default splitter

  predicate IsQuote(c: char) {
    c == '"' || c == '\''
  }

  /** Characters of an unquoted token. */
  predicate IsBare(c: char) {
    !IsSpace(c) && !IsQuote(c)
  }

  function BareRun(s: string): (n: nat)
    ensures n <= |s|
    ensures forall i :: 0 <= i < n ==> IsBare(s[i])
    ensures n < |s| ==> !IsBare(s[n])
  {
    if s != [] && IsBare(s[0]) then 1 + BareRun(s[1..]) else 0
  }

  /** Position of the first `q` in `s`. */
  function IndexOf(s: string, q: char): (r: Option<nat>)
    ensures r.Some? ==> r.value < |s| && s[r.value] == q && forall i :: 0 <= i < r.value ==> s[i] != q
    ensures r.None? ==> forall i :: 0 <= i < |s| ==> s[i] != q
  {
    if s == [] then None
    else if s[0] == q then Some(0)
    else match IndexOf(s[1..], q)
      case None => None
      case Some(i) => Some(i + 1)
  }

  /** A token of the default pattern: a run of characters that are neither
      white space nor quotes, or a quoted text including its quotes. */
  predicate IsToken(t: string) {
    (|t| > 0 && forall i :: 0 <= i < |t| ==> IsBare(t[i]))
    || (|t| >= 2 && IsQuote(t[0]) && t[|t| - 1] == t[0] && forall i :: 0 < i < |t| - 1 ==> t[i] != t[0])
  }

  /** `cut.match(/[^\s"']+|"([^"]*)"|'([^']*)'/g) || []`: at each position
      the alternatives are tried in order, and a position where none
      matches (white space, or a quote that is never closed) is skipped. */
  function Tokens(s: string): (r: seq<string>)
    ensures forall i :: 0 <= i < |r| ==> IsToken(r[i])
    decreases |s|
  {
    if s == [] then []
    else if IsBare(s[0]) then
      var n := BareRun(s);
      [s[..n]] + Tokens(s[n..])
    else if IsQuote(s[0]) && IndexOf(s[1..], s[0]).Some? then
      var n := IndexOf(s[1..], s[0]).value + 2;
      assert forall i :: 0 < i < n - 1 ==> s[i] == s[1..][i - 1];
      [s[..n]] + Tokens(s[n..])
    else Tokens(s[1..])
  }

  /** A message without quotes splits into its white-space separated words:
      the first token is the leading run of the text after the white space. */
  lemma {:induction false} TokensSkipSpace(sp: string, w: string, rest: string)
    requires forall i :: 0 <= i < |sp| ==> IsSpace(sp[i])
    requires w != [] && forall i :: 0 <= i < |w| ==> IsBare(w[i])
    requires rest == [] || IsSpace(rest[0])
    ensures Tokens(sp + w + rest) == [w] + Tokens(rest)
    decreases |sp|
  {
    if sp == [] {
      assert sp + w + rest == w + rest;
      BareRunOf(w, rest);
      assert (w + rest)[..|w|] == w && (w + rest)[|w|..] == rest;
    } else {
      assert (sp + w + rest)[1..] == sp[1..] + w + rest;
      TokensSkipSpace(sp[1..], w, rest);
    }
  }

  lemma {:induction false} BareRunOf(w: string, rest: string)
    requires forall i :: 0 <= i < |w| ==> IsBare(w[i])
    requires rest == [] || !IsBare(rest[0])
    ensures BareRun(w + rest) == |w|
    decreases |w|
  {
    if w == [] {
      assert w + rest == rest;
    } else {
      assert (w + rest)[1..] == w[1..] + rest;
      BareRunOf(w[1..], rest);
    }
  }

  /** A quote that is closed later yields the quoted text, quotes included,
      as one token, and splitting goes on after the closing quote. */
  lemma TokensQuoted(q: char, body: string, rest: string)
    requires IsQuote(q)
    requires forall i :: 0 <= i < |body| ==> body[i] != q
    ensures Tokens([q] + body + [q] + rest) == [[q] + body + [q]] + Tokens(rest)
  {
    var s := [q] + body + [q] + rest;
    assert s[1..] == body + [q] + rest;
    var k := IndexOf(s[1..], q);
    assert s[1..][|body|] == q;
    assert k.Some? && k.value == |body|;
    assert s[..|body| + 2] == [q] + body + [q];
    assert s[|body| + 2..] == rest;
  }

  /** A quote that is never closed matches no alternative: only that one
      character is skipped, and the text after it is split as usual. */
  lemma TokensUnclosed(q: char, rest: string)
    requires IsQuote(q)
    requires forall i :: 0 <= i < |rest| ==> rest[i] != q
    ensures Tokens([q] + rest) == Tokens(rest)
  {
    assert ([q] + rest)[1..] == rest;
  }

  function Split(sp: Splitter, cut: string): seq<string> {
    match sp
    case DefaultSplitter => Tokens(cut)
    case CustomSplitter(f) => f(cut)
  }

  // ---------------------------------------------------------------------
  // Types

  /** A type `firstType` can try: a built-in, a guild member or user lookup
      (see `Lookup`), or an array of literals. */
  datatype Kind = StringKind | NumberKind | TimeKind | External(name: string) | Literal(items: seq<string>)

  /** The names of the `types` table. */
  predicate IsTypeName(n: string) {
    n == "string" || n == "number" || n == "time" || n == "member" || n == "user"
  }

  function KindOf(n: string): Kind {
    if n == "string" then StringKind
    else if n == "number" then NumberKind
    else if n == "time" then TimeKind
    else External(n)
  }

  /** The `member` and `user` types look members and users up on the
      platform: `parse` gives the looked-up entity (a falsy value when there
      is none) and `filter` checks it against the definition. */
  datatype Lookup = Lookup(parse: (string, string) -> Value, filter: (string, Value) -> bool)

  /** The names `in` also finds on the `types` table, which inherits them
      from `Object.prototype`. */
  predicate IsProtoName(n: string) {
    n in {"constructor", "toString", "toLocaleString", "valueOf", "hasOwnProperty", "isPrototypeOf",
          "propertyIsEnumerable", "__proto__", "__defineGetter__", "__defineSetter__",
          "__lookupGetter__", "__lookupSetter__"}
  }

  /** The key an array becomes when it indexes an object: its items joined
      by commas. */
  function CommaKey(items: seq<string>): string {
    if items == [] then "" else Utils.JoinWith(items, ',')
  }

  /** `validType`: a name `in` finds on the table (its own or an inherited
      one), or an array whose every entry is a string or an array. */
  predicate ValidType(t: DefType) {
    match t
    case Named(n) => IsTypeName(n) || IsProtoName(n)
    case Listed(es) => forall i :: 0 <= i < |es| ==> !es[i].EntryOther?
    case Unnamed => false
  }

  /** A name passes `validType` exactly when the table lookup finds it, so
      a valid type never reads `type` before it is initialised; an array
      fails only through an entry that is neither a string nor an array. */
  lemma ValidTypeMeans(t: DefType)
    ensures t.Named? ==> (ValidType(t) <==> TableEntry(t.name).Some?)
    ensures ValidType(t) ==> forall i :: 0 <= i < |Candidates(t)| ==> Candidates(t)[i] != Broken(TypeBeforeInit)
    ensures t.Listed? && !ValidType(t) ==> exists i :: 0 <= i < |t.entries| && t.entries[i].EntryOther?
  {
    if t.Listed? && ValidType(t) {
      var cs := Candidates(t);
      forall i | 0 <= i < |cs|
        ensures cs[i] != Broken(TypeBeforeInit)
      {
        assert cs[i] == EntryCandidate(t.entries[i]);
      }
    }
  }

  /** What `firstType` iterates over: a type it can run, or an entry whose
      use throws. */
  datatype Candidate = Known(kind: Kind) | Broken(error: string)

  const TypeBeforeInit := "ReferenceError: Cannot access 'type' before initialization"
  const ParseNotFunction := "TypeError: type.parse is not a function"

  /** `types[key] || type` for a key the table is indexed with: a type of
      the table, an inherited member (which has no `parse`), or nothing. */
  function TableEntry(key: string): Option<Candidate> {
    if IsTypeName(key) then Some(Known(KindOf(key)))
    else if IsProtoName(key) then Some(Broken(ParseNotFunction))
    else None
  }

  /** `types[type] || type` for one entry of an array type: a string
      outside the table has no `parse`; an array is looked up by its comma
      key first, and only a key the table lacks leaves it a literal list. */
  function EntryCandidate(e: TypeEntry): (r: Candidate)
    ensures e.EntryName? ==> (r.Known? <==> IsTypeName(e.name))
    ensures e.EntryName? && r.Known? ==> r.kind == KindOf(e.name)
    ensures e.EntryList? ==> (r == Known(Literal(e.items)) <==> TableEntry(CommaKey(e.items)).None?)
    ensures e.EntryList? && TableEntry(CommaKey(e.items)).Some? ==> r == TableEntry(CommaKey(e.items)).value
    ensures r.Broken? ==> r.error == ParseNotFunction
  {
    match e
    case EntryName(n) => if IsTypeName(n) then Known(KindOf(n)) else Broken(ParseNotFunction)
    case EntryList(items) =>
      (match TableEntry(CommaKey(items))
       case Some(c) => c
       case None => Known(Literal(items)))
    case EntryOther => Broken(ParseNotFunction)
  }

  function EntryCandidates(es: seq<TypeEntry>): (r: seq<Candidate>)
    ensures |r| == |es| && forall i :: 0 <= i < |es| ==> r[i] == EntryCandidate(es[i])
  {
    if es == [] then [] else [EntryCandidate(es[0])] + EntryCandidates(es[1..])
  }

  /** The types of a declaration, in declaration order: an array maps
      each entry through the table; a single name is looked up, and a name
      the table lacks leaves `type` read before it is initialised. */
  function Candidates(t: DefType): (r: seq<Candidate>)
    ensures t.Named? ==> |r| == 1 && (r[0].Known? <==> IsTypeName(t.name))
    ensures t.Named? && IsTypeName(t.name) ==> r == [Known(KindOf(t.name))]
    ensures t.Named? ==> (r == [Broken(ParseNotFunction)] <==> IsProtoName(t.name))
    ensures ValidType(t) && t.Named? ==> r[0] != Broken(TypeBeforeInit)
    ensures t.Listed? ==> |r| == |t.entries|
  {
    match t
    case Named(n) => [match TableEntry(n) case Some(c) => c case None => Broken(TypeBeforeInit)]
    case Listed(es) => EntryCandidates(es)
    case Unnamed => [Broken(TypeBeforeInit)]
  }

  /** An array entry holding one type name is that type, and one holding
      an inherited name throws like the name would. */
  lemma SingletonListIsName(n: string)
    ensures IsTypeName(n) ==> EntryCandidate(EntryList([n])) == EntryCandidate(EntryName(n))
    ensures IsProtoName(n) ==> EntryCandidate(EntryList([n])) == Broken(ParseNotFunction)
    ensures !IsTypeName(n) && !IsProtoName(n) ==> EntryCandidate(EntryList([n])) == Known(Literal([n]))
  {
    assert CommaKey([n]) == n;
  }

  /** `[['time']]` declares the time type, not the literal "time", and
      `'constructor'` passes `validType` but throws once run. */
  lemma TypeKeyExamples()
    ensures Candidates(Listed([EntryList(["time"])])) == [Known(TimeKind)]
    ensures Candidates(Listed([EntryList(["a", "b"])])) == [Known(Literal(["a", "b"]))]
    ensures ValidType(Named("constructor")) && Candidates(Named("constructor")) == [Broken(ParseNotFunction)]
  {
    SingletonListIsName("time");
    assert CommaKey(["a", "b"]) == "a,b";
    assert EntryCandidates([EntryList(["time"])]) == [EntryCandidate(EntryList(["time"]))];
  }

  // `parseInt(c)` without a radix

  function HexValue(c: char): (r: Option<nat>)
    ensures r.Some? ==> r.value < 16
  {
    if '0' <= c <= '9' then Some(c as int - '0' as int)
    else if 'a' <= c <= 'f' then Some(c as int - 'a' as int + 10)
    else if 'A' <= c <= 'F' then Some(c as int - 'A' as int + 10)
    else None
  }

  predicate IsRadixDigit(c: char, radix: nat) {
    HexValue(c).Some? && HexValue(c).value < radix
  }

  function RadixRun(s: string, radix: nat): (n: nat)
    ensures n <= |s| && forall i :: 0 <= i < n ==> IsRadixDigit(s[i], radix)
    ensures n < |s| ==> !IsRadixDigit(s[n], radix)
  {
    if s != [] && IsRadixDigit(s[0], radix) then 1 + RadixRun(s[1..], radix) else 0
  }

  lemma NatProduct(a: nat, b: nat)
    ensures a * b >= 0
  {
  }

  function RadixValue(s: string, radix: nat): nat
    requires forall i :: 0 <= i < |s| ==> IsRadixDigit(s[i], radix)
  {
    if s == [] then 0
    else
      var last := s[|s| - 1];
      assert IsRadixDigit(last, radix);
      var high := RadixValue(s[..|s| - 1], radix);
      NatProduct(high, radix);
      high * radix + HexValue(last).value
  }

  predicate HexPrefix(s: string) {
    |s| >= 2 && s[0] == '0' && (s[1] == 'x' || s[1] == 'X')
  }

  /** The unsigned part: an optional 0x prefix switches to base 16; the
      longest run of digits is read, and no digit at all is NaN. */
  function ParseUnsigned(s: string): (r: Option<nat>)
    ensures r.Some? ==> RadixRun(s, 10) > 0 || HexPrefix(s)
  {
    var radix := if HexPrefix(s) then 16 else 10;
    var t := if HexPrefix(s) then s[2..] else s;
    var n := RadixRun(t, radix);
    if n == 0 then None else Some(RadixValue(t[..n], radix))
  }

  /** `parseInt(c)`: leading white space and one sign are skipped, then the
      leading digits are read; `None` is NaN. */
  function ParseInt(c: string): (r: Option<int>)
  {
    var t := TrimStart(c);
    var signed := t != [] && (t[0] == '-' || t[0] == '+');
    var u := ParseUnsigned(if signed then t[1..] else t);
    if u.None? then None
    else if signed && t[0] == '-' then Some(0 - u.value)
    else Some(u.value)
  }

  /** parseInt reads the leading decimal digits and ignores what follows
      them, so "5m" reads as 5. */
  lemma ParseIntLeadingDigits(d: string, t: string)
    requires d != [] && AllDigits(d) && (d[0] != '0' || |d| > 1 || t == [] || (t[0] != 'x' && t[0] != 'X'))
    requires t == [] || HexValue(t[0]).None? || HexValue(t[0]).value >= 10
    ensures ParseInt(d + t) == Some(DigitsValue(d))
  {
    var s := d + t;
    assert s[0] == d[0] && IsDigit(s[0]);
    assert !IsSpace(s[0]);
    assert TrimStart(s) == s;
    assert s[0] != '-' && s[0] != '+';
    assert !HexPrefix(s) by {
      if |d| > 1 {
        assert s[1] == d[1];
      }
    }
    RadixRunOf(d, t);
    assert s[..|d|] == d;
    RadixDecimal(d);
    assert ParseUnsigned(s) == Some(DigitsValue(d));
  }

  lemma {:induction false} RadixRunOf(d: string, t: string)
    requires AllDigits(d)
    requires t == [] || HexValue(t[0]).None? || HexValue(t[0]).value >= 10
    ensures RadixRun(d + t, 10) == |d|
    decreases |d|
  {
    if d == [] {
      assert d + t == t;
    } else {
      assert (d + t)[1..] == d[1..] + t;
      RadixRunOf(d[1..], t);
    }
  }

  lemma {:induction false} RadixDecimal(d: string)
    requires AllDigits(d)
    ensures forall i :: 0 <= i < |d| ==> IsRadixDigit(d[i], 10)
    ensures RadixValue(d, 10) == DigitsValue(d)
    decreases |d|
  {
    if d != [] {
      RadixDecimal(d[..|d| - 1]);
    }
  }

  /** Text that starts with neither white space, a sign nor a decimal
      digit reads as NaN. */
  lemma ParseIntNoDigits(c: string)
    requires c != [] && !IsSpace(c[0]) && c[0] != '-' && c[0] != '+'
    requires HexValue(c[0]).None? || HexValue(c[0]).value >= 10
    ensures ParseInt(c) == None
  {
    assert TrimStart(c) == c;
  }

  lemma ParseIntExamples()
    ensures ParseInt("5m") == Some(5)
    ensures ParseInt("abc") == None
  {
    FiveMinutesAsNumber();
    ParseIntNoDigits("abc");
  }

  lemma FiveMinutesAsNumber()
    ensures ParseInt("5m") == Some(5)
  {
    ParseIntLeadingDigits("5", "m");
    assert "5" + "m" == "5m";
  }

  /** The parse of each type. A string and a literal parse to the
      candidate itself; `time` gives `null` when `parseTime` does. */
  function Parse(k: Kind, c: string, look: Lookup): Value {
    match k
    case StringKind => Str(c)
    case NumberKind => (match ParseInt(c) case Some(n) => Num(n) case None => NaN)
    case TimeKind => if Utils.TimeSum(c) == 0 then Null else Num(Utils.TimeSum(c))
    case External(n) => look.parse(n, c)
    case Literal(_) => Str(c)
  }

  /** The filter of each type, with the definition's range. The string
      filter is the one in the source: length at most `min` and at least
      `max`. */
  predicate Accepts(k: Kind, v: Value, range: Range, look: Lookup) {
    match k
    case StringKind => v.Str? && v.s != "" && AtMost(Utf16Length(v.s), range.min) && AtLeast(Utf16Length(v.s), range.max)
    case NumberKind => v.Num? && v.n != 0 && AtLeast(v.n, range.min) && AtMost(v.n, range.max)
    case TimeKind => v.Num? && v.n != 0 && AtLeast(v.n, range.min) && AtMost(v.n, range.max)
    case External(n) => look.filter(n, v)
    case Literal(items) => v.Str? && Lower(v.s) in items
  }

  /** `parsed && type.filter(parsed, def.range)` */
  predicate Matches(k: Kind, c: string, range: Range, look: Lookup) {
    var v := Parse(k, c, look);
    Truthy(v) && Accepts(k, v, range, look)
  }

  /** `firstType`: the first candidate that matches, `None` for
      `undefined`, or the error of a broken entry reached first. */
  function FirstTypeOf(cs: seq<Candidate>, c: string, range: Range, look: Lookup): Result<Option<Kind>, string> {
    if cs == [] then Ok(None)
    else match cs[0]
      case Broken(e) => Err(e)
      case Known(k) => if Matches(k, c, range, look) then Ok(Some(k)) else FirstTypeOf(cs[1..], c, range, look)
  }

  /** The result of `firstType` is the first declared type that matches:
      every earlier one is a type that does not match. Without a result
      no declared type matches. */
  lemma {:induction false} FirstTypeIsFirst(cs: seq<Candidate>, c: string, range: Range, look: Lookup)
    ensures var r := FirstTypeOf(cs, c, range, look);
            (r.Ok? && r.value.Some? ==>
               exists i :: (0 <= i < |cs| && cs[i] == Known(r.value.value) && Matches(r.value.value, c, range, look)
                            && forall j :: 0 <= j < i ==> cs[j].Known? && !Matches(cs[j].kind, c, range, look)))
            && (r == Ok(None) <==> forall j :: 0 <= j < |cs| ==> cs[j].Known? && !Matches(cs[j].kind, c, range, look))
            && (r.Err? ==> exists i :: (0 <= i < |cs| && cs[i] == Broken(r.error)
                            && forall j :: 0 <= j < i ==> cs[j].Known? && !Matches(cs[j].kind, c, range, look)))
    decreases |cs|
  {
    if cs != [] {
      FirstTypeIsFirst(cs[1..], c, range, look);
      var r := FirstTypeOf(cs[1..], c, range, look);
      if cs[0].Known? && !Matches(cs[0].kind, c, range, look) {
        if r.Ok? && r.value.Some? {
          var i :| 0 <= i < |cs[1..]| && cs[1..][i] == Known(r.value.value) && Matches(r.value.value, c, range, look)
                   && forall j :: 0 <= j < i ==> cs[1..][j].Known? && !Matches(cs[1..][j].kind, c, range, look);
          assert cs[i + 1] == Known(r.value.value);
          assert forall j :: 0 <= j < i + 1 ==> cs[j].Known? && !Matches(cs[j].kind, c, range, look) by {
            forall j | 0 < j < i + 1 ensures cs[j].Known? && !Matches(cs[j].kind, c, range, look) {
              assert cs[j] == cs[1..][j - 1];
            }
          }
        }
        if r.Err? {
          var i :| 0 <= i < |cs[1..]| && cs[1..][i] == Broken(r.error)
                   && forall j :: 0 <= j < i ==> cs[1..][j].Known? && !Matches(cs[1..][j].kind, c, range, look);
          assert cs[i + 1] == Broken(r.error);
          assert forall j :: 0 <= j < i + 1 ==> cs[j].Known? && !Matches(cs[j].kind, c, range, look) by {
            forall j | 0 < j < i + 1 ensures cs[j].Known? && !Matches(cs[j].kind, c, range, look) {
              assert cs[j] == cs[1..][j - 1];
            }
          }
        }
        if forall j :: 0 <= j < |cs[1..]| ==> cs[1..][j].Known? && !Matches(cs[1..][j].kind, c, range, look) {
          assert forall j :: 0 <= j < |cs| ==> cs[j].Known? && !Matches(cs[j].kind, c, range, look) by {
            forall j | 0 < j < |cs| ensures cs[j].Known? && !Matches(cs[j].kind, c, range, look) {
              assert cs[j] == cs[1..][j - 1];
            }
          }
        }
      }
    }
  }

  /** A literal list parses to the candidate and accepts it exactly when
      the list holds the lower-cased candidate (the list itself is not
      lower-cased). */
  lemma LiteralMatches(items: seq<string>, c: string, range: Range, look: Lookup)
    ensures Parse(Literal(items), c, look) == Str(c)
    ensures Matches(Literal(items), c, range, look) <==> c != "" && Lower(c) in items
  {
  }

  /** number and time accept a parse exactly when it is a non-zero number
      within the range, so 0 never passes. */
  lemma NumbersNeedTruthyValue(k: Kind, c: string, range: Range, look: Lookup)
    requires k == NumberKind || k == TimeKind
    ensures Matches(k, c, range, look) <==>
              Parse(k, c, look).Num? && Parse(k, c, look).n != 0
              && AtLeast(Parse(k, c, look).n, range.min) && AtMost(Parse(k, c, look).n, range.max)
    ensures k == NumberKind ==> (Matches(k, c, range, look) <==>
              ParseInt(c).Some? && ParseInt(c).value != 0
              && AtLeast(ParseInt(c).value, range.min) && AtMost(ParseInt(c).value, range.max))
    ensures k == TimeKind ==> (Matches(k, c, range, look) <==>
              Utils.TimeSum(c) > 0 && AtLeast(Utils.TimeSum(c), range.min) && AtMost(Utils.TimeSum(c), range.max))
  {
    var v := Parse(k, c, look);
    assert Matches(k, c, range, look) == (Truthy(v) && Accepts(k, v, range, look));
    if k == NumberKind {
      match ParseInt(c)
      case Some(n) => assert v == Num(n);
      case None => assert v == NaN;
    } else {
      var t := Utils.TimeSum(c);
      assert v == if t == 0 then Null else Num(t);
    }
  }

  /** The string filter as written can only pass when `max <= min`, so
      with the default range it rejects every candidate. */
  lemma StringFilterInverted(c: string, range: Range, look: Lookup, lo: int, hi: int)
    ensures Matches(StringKind, c, range, look) ==>
              !range.min.NegInf? && !range.max.PosInf?
              && (range.min.Fin? && range.max.Fin? ==> range.max.n <= Utf16Length(c) <= range.min.n)
    ensures !Matches(StringKind, c, Range(NegInf, PosInf), look)
    ensures lo < hi ==> !Matches(StringKind, c, Range(Fin(lo), Fin(hi)), look)
  {
  }

  /** Running one type: `time` needs the `parseTime` loop. */
  method ParseWith(k: Kind, c: string, look: Lookup) returns (v: Value)
    ensures v == Parse(k, c, look)
    ensures k == TimeKind ==> (v == Null <==> Utils.TimeSum(c) == 0)
  {
    match k {
      case TimeKind =>
        var t := Utils.ParseTime(c);
        v := if t.Some? then Num(t.value) else Null;
      case _ =>
        v := Parse(k, c, look);
    }
  }

  /** `firstType(call, def, arg)`. */
  method FirstType(d: Definition, c: string, look: Lookup) returns (r: Result<Option<Kind>, string>)
    ensures r == FirstTypeOf(Candidates(d.typ), c, d.range, look)
  {
    var cs := Candidates(d.typ);
    var i := 0;
    while i < |cs|
      invariant 0 <= i <= |cs|
      invariant FirstTypeOf(cs[i..], c, d.range, look) == FirstTypeOf(cs, c, d.range, look)
    {
      assert cs[i..][1..] == cs[i + 1..];
      assert cs[i..][0] == cs[i];
      match cs[i] {
        case Broken(e) =>
          assert FirstTypeOf(cs[i..], c, d.range, look) == Err(e);
          return Err(e);
        case Known(k) =>
          var v := ParseWith(k, c, look);
          if Truthy(v) && Accepts(k, v, d.range, look) {
            assert FirstTypeOf(cs[i..], c, d.range, look) == Ok(Some(k));
            return Ok(Some(k));
          }
          assert FirstTypeOf(cs[i..], c, d.range, look) == FirstTypeOf(cs[i + 1..], c, d.range, look);
      }
      i := i + 1;
    }
    return Ok(None);
  }

  // ---------------------------------------------------------------------
  // getAll

  /** What `getAll` reads of the call: the cut and the command id. */
  datatype CallInfo = CallInfo(cut: string, commandId: string)

  /** The reply to the prompt of a definition: the content of the message
      the prompt accepted, or the error its promise was rejected with. */
  datatype Reply = Replied(content: string) | PromptFailed(error: string)

  function InvalidTypeError(n: nat, id: string): string {
    "TypeError: Invalid type(s) provided for argument " + NatToString(n) + " of " + id + "."
  }

  function InvalidPromptError(n: nat, id: string): string {
    "TypeError: Invalid prompt property for argument " + NatToString(n) + " of " + id + "."
  }

  const UndefinedParse := "TypeError: Cannot read properties of undefined (reading 'parse')"

  /** `[].join(' ')` is the empty string. */
  function Join(ss: seq<string>): string {
    if ss == [] then "" else Utils.JoinWith(ss, ' ')
  }

  /** The text offered to a definition: an infinite one gets the token at
      the cursor, any other one the rest of the tokens joined by spaces.
      A missing token is `undefined`, here the empty text. */
  function CandidateText(d: Definition, split: seq<string>, pos: nat): string {
    if d.infinite then (if pos < |split| then split[pos] else "")
    else if pos <= |split| then Join(split[pos..]) else ""
  }

  /** `arg` before the fallback: the candidate text parsed by the first
      type that matches it, or `undefined` when the text is empty or no
      type matches. */
  function DirectValue(d: Definition, split: seq<string>, pos: nat, look: Lookup): Result<Value, string> {
    var c := CandidateText(d, split, pos);
    if c == "" then Ok(Undefined)
    else match FirstTypeOf(Candidates(d.typ), c, d.range, look)
      case Err(e) => Err(e)
      case Ok(None) => Ok(Undefined)
      case Ok(Some(k)) => Ok(Parse(k, c, look))
  }

  /** The value a definition gets and whether the cursor moves past it:
      the parse of the first matching type moves it; a default or a prompt
      reply does not. */
  function ResolveOne(d: Definition, idx: nat, pos: nat, split: seq<string>, call: CallInfo,
                      look: Lookup, ask: (nat, string) -> Reply): Result<(Value, bool), string>
  {
    if !ValidType(d.typ) then Err(InvalidTypeError(pos + 1, call.commandId))
    else
      var direct := DirectValue(d, split, pos, look);
      if direct.Err? then Err(direct.error)
      else if Truthy(direct.value) then Ok((direct.value, true))
      else if d.defaultValue.Some? then Ok((d.defaultValue.value, false))
      else if !(d.prompt.Some? && d.prompt.value.Str?) then Err(InvalidPromptError(pos, call.commandId))
      else match ask(idx, d.prompt.value.s)
        case PromptFailed(e) => Err(e)
        case Replied(content) =>
          match FirstTypeOf(Candidates(d.typ), content, d.range, look)
          case Err(e) => Err(e)
          case Ok(None) => Err(UndefinedParse)
          case Ok(Some(k)) => Ok((Parse(k, content, look), false))
  }

  /** The loop of `getAll` from definition `i` with the cursor at `pos`. */
  function GetAllFrom(defs: seq<Definition>, i: nat, pos: nat, split: seq<string>, args: map<string, Value>,
                      call: CallInfo, look: Lookup, ask: (nat, string) -> Reply): Result<map<string, Value>, string>
    decreases |defs| - i
  {
    if i >= |defs| then Ok(args)
    else match ResolveOne(defs[i], i, pos, split, call, look, ask)
      case Err(e) => Err(e)
      case Ok((v, moved)) =>
        var args' := args[defs[i].key := v];
        if defs[i].infinite then Ok(args')
        else GetAllFrom(defs, i + 1, if moved then pos + 1 else pos, split, args', call, look, ask)
  }

  /** One turn of the loop of `getAll`: the definition's result either
      ends the loop or moves on to the next definition. */
  lemma GetAllFromStep(defs: seq<Definition>, i: nat, pos: nat, split: seq<string>, args: map<string, Value>,
                       call: CallInfo, look: Lookup, ask: (nat, string) -> Reply, r: Result<(Value, bool), string>)
    requires i < |defs| && r == ResolveOne(defs[i], i, pos, split, call, look, ask)
    ensures r.Err? ==> GetAllFrom(defs, i, pos, split, args, call, look, ask) == Err(r.error)
    ensures r.Ok? && defs[i].infinite ==> GetAllFrom(defs, i, pos, split, args, call, look, ask) == Ok(args[defs[i].key := r.value.0])
    ensures r.Ok? && !defs[i].infinite ==>
              GetAllFrom(defs, i, pos, split, args, call, look, ask)
              == GetAllFrom(defs, i + 1, if r.value.1 then pos + 1 else pos, split, args[defs[i].key := r.value.0], call, look, ask)
  {
  }

  /** `getAll(call)`. */
  method GetAll(a: Arguments, call: CallInfo, look: Lookup, ask: (nat, string) -> Reply)
    returns (r: Result<map<string, Value>, string>)
    ensures r == GetAllFrom(a.definitions, 0, 0, Split(a.splitter, call.cut), map[], call, look, ask)
  {
    var split := Split(a.splitter, call.cut);
    var defs := a.definitions;
    var args: map<string, Value> := map[];
    var pos: nat := 0;
    var i := 0;
    ghost var goal := GetAllFrom(defs, 0, 0, split, map[], call, look, ask);
    while i < |defs|
      invariant 0 <= i <= |defs|
      invariant GetAllFrom(defs, i, pos, split, args, call, look, ask) == goal
    {
      var d := defs[i];
      var step := Resolve(d, i, pos, split, call, look, ask);
      GetAllFromStep(defs, i, pos, split, args, call, look, ask, step);
      if step.Err? {
        return Err(step.error);
      }
      var (v, moved) := step.value;
      args := args[d.key := v];
      if moved {
        pos := pos + 1;
      }
      if d.infinite {
        return Ok(args);
      }
      i := i + 1;
    }
    return Ok(args);
  }

  /** One pass of the loop body of `getAll`. */
  method Resolve(d: Definition, idx: nat, pos: nat, split: seq<string>, call: CallInfo,
                 look: Lookup, ask: (nat, string) -> Reply) returns (r: Result<(Value, bool), string>)
    ensures r == ResolveOne(d, idx, pos, split, call, look, ask)
  {
    if !ValidType(d.typ) {
      return Err(InvalidTypeError(pos + 1, call.commandId));
    }
    var c := CandidateText(d, split, pos);
    var arg := Undefined;
    if c != "" {
      var t := FirstType(d, c, look);
      if t.Err? {
        return Err(t.error);
      }
      if t.value.Some? {
        arg := ParseWith(t.value.value, c, look);
      }
    }
    if Truthy(arg) {
      return Ok((arg, true));
    }
    if d.defaultValue.Some? {
      return Ok((d.defaultValue.value, false));
    }
    if !(d.prompt.Some? && d.prompt.value.Str?) {
      return Err(InvalidPromptError(pos, call.commandId));
    }
    match ask(idx, d.prompt.value.s) {
      case PromptFailed(e) =>
        return Err(e);
      case Replied(content) =>
        var t := FirstType(d, content, look);
        if t.Err? {
          return Err(t.error);
        }
        if t.value.None? {
          return Err(UndefinedParse);
        }
        var v := ParseWith(t.value.value, content, look);
        return Ok((v, false));
    }
  }

  // Properties of the walk

  /** A declared type that `validType` refuses aborts the walk with a
      TypeError naming the position plus one and the command. */
  lemma InvalidTypeAborts(d: Definition, idx: nat, pos: nat, split: seq<string>, call: CallInfo,
                          look: Lookup, ask: (nat, string) -> Reply)
    requires !ValidType(d.typ)
    ensures ResolveOne(d, idx, pos, split, call, look, ask) == Err(InvalidTypeError(pos + 1, call.commandId))
  {
  }

  /** The cursor moves exactly when the candidate text itself gave the
      value; a default or a prompt reply leaves it in place. A falsy
      direct value with a default present takes the default. */
  lemma CursorMoves(d: Definition, idx: nat, pos: nat, split: seq<string>, call: CallInfo,
                    look: Lookup, ask: (nat, string) -> Reply)
    requires ResolveOne(d, idx, pos, split, call, look, ask).Ok?
    ensures var (v, moved) := ResolveOne(d, idx, pos, split, call, look, ask).value;
            var c := CandidateText(d, split, pos);
            (moved <==> c != "" && FirstTypeOf(Candidates(d.typ), c, d.range, look).Ok?
                        && FirstTypeOf(Candidates(d.typ), c, d.range, look).value.Some?)
            && (moved ==> v == Parse(FirstTypeOf(Candidates(d.typ), c, d.range, look).value.value, c, look))
            && (!moved && d.defaultValue.Some? ==> v == d.defaultValue.value)
  {
    var c := CandidateText(d, split, pos);
    if c != "" {
      var f := FirstTypeOf(Candidates(d.typ), c, d.range, look);
      if f.Ok? && f.value.Some? {
        assert Matches(f.value.value, c, d.range, look) by {
          FirstTypeIsFirst(Candidates(d.typ), c, d.range, look);
        }
      }
    }
  }

  /** A definition without a default whose prompt is not a string aborts
      with a TypeError naming the position itself (not plus one) whenever
      the text gives no truthy value: empty text, text no type matches, or
      a falsy parse. */
  lemma InvalidPromptAborts(d: Definition, idx: nat, pos: nat, split: seq<string>, call: CallInfo,
                            look: Lookup, ask: (nat, string) -> Reply)
    requires ValidType(d.typ)
    requires DirectValue(d, split, pos, look).Ok? && !Truthy(DirectValue(d, split, pos, look).value)
    requires d.defaultValue.None? && !(d.prompt.Some? && d.prompt.value.Str?)
    ensures ResolveOne(d, idx, pos, split, call, look, ask) == Err(InvalidPromptError(pos, call.commandId))
  {
  }

  /** When the text gives no truthy value, the default is taken if there
      is one; otherwise the string prompt is asked, its failure is the
      error, and a reply is parsed with the first type that matches it.
      `ask` may give any reply, so the two other branches say what the
      model does with a reply the prompt's filter would not have stored
      (see `PromptedReplyParses` for the replies it does store). The
      cursor stays. */
  lemma Fallback(d: Definition, idx: nat, pos: nat, split: seq<string>, call: CallInfo,
                 look: Lookup, ask: (nat, string) -> Reply)
    requires ValidType(d.typ)
    requires DirectValue(d, split, pos, look).Ok? && !Truthy(DirectValue(d, split, pos, look).value)
    ensures var r := ResolveOne(d, idx, pos, split, call, look, ask);
            (d.defaultValue.Some? ==> r == Ok((d.defaultValue.value, false)))
            && (d.defaultValue.None? && d.prompt.Some? && d.prompt.value.Str? ==>
                  var answer := ask(idx, d.prompt.value.s);
                  (answer.PromptFailed? ==> r == Err(answer.error))
                  && (answer.Replied? ==>
                        var f := FirstTypeOf(Candidates(d.typ), answer.content, d.range, look);
                        (f.Err? ==> r == Err(f.error))
                        && (f == Ok(None) ==> r == Err(UndefinedParse))
                        && (f.Ok? && f.value.Some? ==>
                              r == Ok((Parse(f.value.value, answer.content, look), false))
                              && Matches(f.value.value, answer.content, d.range, look)
                              && Known(f.value.value) in Candidates(d.typ))))
  {
    if d.defaultValue.None? && d.prompt.Some? && d.prompt.value.Str? {
      var answer := ask(idx, d.prompt.value.s);
      if answer.Replied? {
        FirstTypeIsFirst(Candidates(d.typ), answer.content, d.range, look);
      }
    }
  }

  /** The prompt's filter for a definition: `firstType` finds a declared
      type that matches the content. Only a reply that passes it is
      stored, so only such a reply resolves the prompt. */
  predicate PromptAccepts(d: Definition, content: string, look: Lookup) {
    var f := FirstTypeOf(Candidates(d.typ), content, d.range, look);
    f.Ok? && f.value.Some?
  }

  /** A reply the prompt stored is parsed by the first declared type that
      matches it, and the value is taken without moving the cursor; a
      prompt that ends without one aborts with its error. */
  lemma PromptedReplyParses(d: Definition, idx: nat, pos: nat, split: seq<string>, call: CallInfo,
                            look: Lookup, ask: (nat, string) -> Reply)
    requires ValidType(d.typ)
    requires DirectValue(d, split, pos, look).Ok? && !Truthy(DirectValue(d, split, pos, look).value)
    requires d.defaultValue.None? && d.prompt.Some? && d.prompt.value.Str?
    requires ask(idx, d.prompt.value.s).Replied? ==> PromptAccepts(d, ask(idx, d.prompt.value.s).content, look)
    ensures var r := ResolveOne(d, idx, pos, split, call, look, ask);
            var answer := ask(idx, d.prompt.value.s);
            (answer.PromptFailed? ==> r == Err(answer.error))
            && (answer.Replied? ==>
                  exists i :: 0 <= i < |Candidates(d.typ)| && Candidates(d.typ)[i].Known?
                    && r == Ok((Parse(Candidates(d.typ)[i].kind, answer.content, look), false))
                    && Matches(Candidates(d.typ)[i].kind, answer.content, d.range, look)
                    && forall j :: 0 <= j < i ==>
                         Candidates(d.typ)[j].Known? && !Matches(Candidates(d.typ)[j].kind, answer.content, d.range, look))
  {
    var answer := ask(idx, d.prompt.value.s);
    if answer.Replied? {
      FirstTypeIsFirst(Candidates(d.typ), answer.content, d.range, look);
    }
  }

  /** An infinite definition that gets its value ends the walk: no later
      definition is looked at. */
  lemma InfiniteEnds(defs: seq<Definition>, i: nat, pos: nat, split: seq<string>, args: map<string, Value>,
                     call: CallInfo, look: Lookup, ask: (nat, string) -> Reply)
    requires i < |defs| && defs[i].infinite
    requires ResolveOne(defs[i], i, pos, split, call, look, ask).Ok?
    ensures GetAllFrom(defs, i, pos, split, args, call, look, ask)
            == Ok(args[defs[i].key := ResolveOne(defs[i], i, pos, split, call, look, ask).value.0])
    ensures GetAllFrom(defs, i, pos, split, args, call, look, ask)
            == GetAllFrom(defs[..i + 1], i, pos, split, args, call, look, ask)
  {
  }

  /** Every value the walk assigns stays: the result holds a key for each
      definition it got to, and only those. */
  lemma {:induction false} GetAllKeys(defs: seq<Definition>, i: nat, pos: nat, split: seq<string>, args: map<string, Value>,
                                      call: CallInfo, look: Lookup, ask: (nat, string) -> Reply)
    requires i <= |defs|
    ensures var r := GetAllFrom(defs, i, pos, split, args, call, look, ask);
            r.Ok? ==> args.Keys <= r.value.Keys
                      && forall k :: k in r.value ==> k in args || exists j :: i <= j < |defs| && defs[j].key == k
    decreases |defs| - i
  {
    if i < |defs| {
      match ResolveOne(defs[i], i, pos, split, call, look, ask)
      case Err(_) =>
      case Ok((v, moved)) =>
        var args' := args[defs[i].key := v];
        if !defs[i].infinite {
          GetAllKeys(defs, i + 1, if moved then pos + 1 else pos, split, args', call, look, ask);
        }
    }
  }

  /** Candidate texts: an infinite definition gets one token, any other the
      remaining tokens joined by spaces. */
  lemma CandidateTextCases(d: Definition, split: seq<string>, pos: nat)
    requires pos < |split|
    ensures d.infinite ==> CandidateText(d, split, pos) == split[pos]
    ensures !d.infinite && pos == |split| - 1 ==> CandidateText(d, split, pos) == split[pos]
    ensures !d.infinite && pos < |split| - 1 ==>
              CandidateText(d, split, pos) == split[pos] + " " + CandidateText(d, split, pos + 1)
  {
    if !d.infinite && pos < |split| - 1 {
      assert split[pos..][1..] == split[pos + 1..];
    }
  }
}
