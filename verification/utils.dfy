/** The helpers of src/utils.js: filling in defaults, reading and defining
    values at a dotted property path, escaping text for a regular expression,
    and reading a duration written as digit-and-unit pairs. */
module Utils {
  import opened Base

  // ---------------------------------------------------------------------
  // defaults(obj, objDef)

  /** Keys of an entry list such as `Object.entries` returns. */
  function EntryKeys<V>(entries: seq<(string, V)>): set<string> {
    set i | 0 <= i < |entries| :: entries[i].0
  }

  /** `Object.entries` never lists a key twice. */
  predicate DistinctKeys<V>(entries: seq<(string, V)>) {
    forall i, j :: 0 <= i < j < |entries| ==> entries[i].0 != entries[j].0
  }

  /** Writes every entry of `objDef` whose key `obj` lacks, and nothing else.
      A key already present keeps its value, so a second call with the same
      `objDef` returns its argument unchanged. */
  method Defaults<V>(obj: map<string, V>, objDef: seq<(string, V)>) returns (r: map<string, V>)
    requires DistinctKeys(objDef)
    ensures r.Keys == obj.Keys + EntryKeys(objDef)
    ensures forall k :: k in obj ==> r[k] == obj[k]
    ensures forall i :: 0 <= i < |objDef| && objDef[i].0 !in obj ==> r[objDef[i].0] == objDef[i].1
    ensures EntryKeys(objDef) <= obj.Keys ==> r == obj
  {
    r := obj;
    var i := 0;
    while i < |objDef|
      invariant 0 <= i <= |objDef|
      invariant r.Keys == obj.Keys + EntryKeys(objDef[..i])
      invariant forall k :: k in obj ==> r[k] == obj[k]
      invariant forall j :: 0 <= j < i && objDef[j].0 !in obj ==> r[objDef[j].0] == objDef[j].1
    {
      var (name, prop) := objDef[i];
      if name !in r {
        r := r[name := prop];
      }
      assert objDef[..i + 1] == objDef[..i] + [objDef[i]];
      i := i + 1;
    }
    assert objDef[..i] == objDef;
  }

  // ---------------------------------------------------------------------
  // Property paths: str.replace(/\[(\w+)\]/g, '.$1').replace(/^\./, '').split('.')

  predicate IsWordChar(c: char) {
    ('a' <= c <= 'z') || ('A' <= c <= 'Z') || IsDigit(c) || c == '_'
  }

  /** Length of the longest prefix of word characters (`\w+` is greedy). */
  function WordRun(s: string): (n: nat)
    ensures n <= |s|
    ensures forall i :: 0 <= i < n ==> IsWordChar(s[i])
    ensures n < |s| ==> !IsWordChar(s[n])
  {
    if s != [] && IsWordChar(s[0]) then 1 + WordRun(s[1..]) else 0
  }

  /** Every `[k]` with `k` a non-empty run of word characters becomes `.k`.
      A shorter run cannot end at a `]`, since the character after it is a
      word character, so the greedy run is the only candidate. */
  function BracketsToDots(s: string): string
    decreases |s|
  {
    if s == [] then []
    else
      var n := WordRun(s[1..]);
      if s[0] == '[' && n > 0 && n + 1 < |s| && s[n + 1] == ']' then
        ['.'] + s[1..n + 1] + BracketsToDots(s[n + 2..])
      else [s[0]] + BracketsToDots(s[1..])
  }

  function DropLeadingDot(s: string): string {
    if s != [] && s[0] == '.' then s[1..] else s
  }

  /** `s.split(sep)` for a one-character separator: never empty, and the
      pieces joined with `sep` give `s` back. */
  function SplitOn(s: string, sep: char): (r: seq<string>)
    ensures |r| > 0
    ensures forall i :: 0 <= i < |r| ==> sep !in r[i]
  {
    if s == [] then [""]
    else
      var rest := SplitOn(s[1..], sep);
      if s[0] == sep then [""] + rest else [[s[0]] + rest[0]] + rest[1..]
  }

  function JoinWith(pieces: seq<string>, sep: char): string
    requires |pieces| > 0
  {
    if |pieces| == 1 then pieces[0] else pieces[0] + [sep] + JoinWith(pieces[1..], sep)
  }

  lemma {:induction false} SplitJoin(s: string, sep: char)
    ensures JoinWith(SplitOn(s, sep), sep) == s
  {
    if s != [] {
      SplitJoin(s[1..], sep);
      var rest := SplitOn(s[1..], sep);
      if s[0] != sep {
        var r := SplitOn(s, sep);
        assert r[1..] == rest[1..];
        if |rest| > 1 {
          assert JoinWith(r, sep) == [s[0]] + rest[0] + [sep] + JoinWith(rest[1..], sep);
        }
      }
    }
  }

  /** The path segments getObjVal and defObjVal walk. */
  function Segments(path: string): (r: seq<string>)
    ensures |r| > 0
  {
    SplitOn(DropLeadingDot(BracketsToDots(path)), '.')
  }

  lemma {:induction false} NoBracketsUnchanged(s: string)
    requires '[' !in s
    ensures BracketsToDots(s) == s
  {
    if s != [] {
      assert s[1..] == s[|s| - (|s| - 1)..];
      assert '[' !in s[1..];
      NoBracketsUnchanged(s[1..]);
    }
  }

  lemma {:induction false} SplitWithoutSeparator(s: string, sep: char)
    requires sep !in s
    ensures SplitOn(s, sep) == [s]
  {
    if s != [] {
      assert sep !in s[1..];
      SplitWithoutSeparator(s[1..], sep);
      assert [s[0]] + s[1..] == s;
    }
  }

  /** A plain property name is a one-segment path. */
  lemma PlainPathSegments(k: string)
    requires '[' !in k && '.' !in k
    ensures Segments(k) == [k]
  {
    NoBracketsUnchanged(k);
    SplitWithoutSeparator(k, '.');
  }

  /** A bracketed index at the front reads as a dotted one. */
  lemma BracketAtFront(k: string, rest: string)
    requires |k| > 0 && forall i :: 0 <= i < |k| ==> IsWordChar(k[i])
    ensures BracketsToDots(['['] + k + [']'] + rest) == ['.'] + k + BracketsToDots(rest)
  {
    var t := ['['] + k + [']'] + rest;
    WordRunOf(k, [']'] + rest);
    assert t[1..] == k + ([']'] + rest);
    assert t[|k| + 2..] == rest;
    assert t[1..|k| + 1] == k;
  }

  lemma {:induction false} WordRunOf(k: string, t: string)
    requires forall i :: 0 <= i < |k| ==> IsWordChar(k[i])
    requires t != [] && !IsWordChar(t[0])
    ensures WordRun(k + t) == |k|
  {
    if k != [] {
      assert (k + t)[1..] == k[1..] + t;
      WordRunOf(k[1..], t);
    }
  }

  // ---------------------------------------------------------------------
  // Values along a path

  const InOperatorError := "TypeError: Cannot use 'in' operator on a value without properties"
  const NullPropertyError := "TypeError: Cannot read properties of null"

  /** Every segment of `segs` is, in turn, an own property. */
  predicate PathExists(v: Value, segs: seq<string>)
    decreases |segs|
  {
    segs == [] || (HasProperties(v) && Has(v, segs[0]) && PathExists(Get(v, segs[0]), segs[1..]))
  }

  /** The value at the end of an existing path. */
  function At(v: Value, segs: seq<string>): Value
    requires PathExists(v, segs)
    decreases |segs|
  {
    if segs == [] then v else At(Get(v, segs[0]), segs[1..])
  }

  lemma {:induction false} AtSnoc(v: Value, segs: seq<string>, k: string)
    requires PathExists(v, segs) && HasProperties(At(v, segs)) && Has(At(v, segs), k)
    ensures PathExists(v, segs + [k]) && At(v, segs + [k]) == Get(At(v, segs), k)
    decreases |segs|
  {
    if segs != [] {
      assert (segs + [k])[1..] == segs[1..] + [k];
      AtSnoc(Get(v, segs[0]), segs[1..], k);
    }
  }

  /** What getObjVal computes: the walk stops with `undefined` at the first
      missing segment and throws when it must look a segment up in a value
      that has no properties. */
  function Walk(v: Value, segs: seq<string>): Result<Value, string>
    decreases |segs|
  {
    if segs == [] then Ok(v)
    else if !HasProperties(v) then Err(InOperatorError)
    else if Has(v, segs[0]) then Walk(Get(v, segs[0]), segs[1..])
    else Ok(Undefined)
  }

  /** getObjVal: rewrites `[k]` to `.k`, drops a leading dot, splits on dots
      and walks the segments. */
  method GetObjVal(obj: Value, str: string) returns (r: Result<Value, string>)
    ensures r == Walk(obj, Segments(str))
  {
    var segs := Segments(str);
    var cur := obj;
    var i := 0;
    while i < |segs|
      invariant 0 <= i <= |segs|
      invariant Walk(obj, segs) == Walk(cur, segs[i..])
    {
      assert segs[i..][1..] == segs[i + 1..];
      if !HasProperties(cur) {
        return Err(InOperatorError);
      }
      if Has(cur, segs[i]) {
        cur := Get(cur, segs[i]);
      } else {
        return Ok(Undefined);
      }
      i := i + 1;
    }
    return Ok(cur);
  }

  /** When the whole path exists, the walk returns the value at its end. */
  lemma {:induction false} WalkExisting(v: Value, segs: seq<string>)
    requires PathExists(v, segs)
    ensures Walk(v, segs) == Ok(At(v, segs))
    decreases |segs|
  {
    if segs != [] {
      WalkExisting(Get(v, segs[0]), segs[1..]);
    }
  }

  /** The walk returns `undefined` as soon as a segment is missing, whatever
      the segments after it are. */
  lemma {:induction false} WalkMissing(v: Value, segs: seq<string>, i: nat)
    requires i < |segs| && PathExists(v, segs[..i])
    requires HasProperties(At(v, segs[..i])) && !Has(At(v, segs[..i]), segs[i])
    ensures Walk(v, segs) == Ok(Undefined)
    decreases i
  {
    if i > 0 {
      assert segs[1..][..i - 1] == segs[..i][1..];
      WalkMissing(Get(v, segs[0]), segs[1..], i - 1);
    }
  }

  // ---------------------------------------------------------------------
  // defObjVal(obj, str, val)

  /** The keys defObjVal moves through: for each segment in turn it enters
      the property when the current value has it and `typeof` calls it an
      object (so also `null`, and also arrays); a missing segment is
      skipped. */
  function Descend(v: Value, segs: seq<string>): (r: Result<seq<string>, string>)
    ensures r.Ok? ==> PathExists(v, r.value)
    ensures r.Ok? && r.value != [] ==> IsObjectType(At(v, r.value))
    ensures r.Ok? && segs != [] ==> HasProperties(v)
    decreases |segs|
  {
    if segs == [] then Ok([])
    else if !HasProperties(v) then Err(InOperatorError)
    else if Has(v, segs[0]) && IsObjectType(Get(v, segs[0])) then
      match Descend(Get(v, segs[0]), segs[1..])
      case Ok(t) => Ok([segs[0]] + t)
      case Err(e) => Err(e)
    else Descend(v, segs[1..])
  }

  /** Writes `x` at key `k` of the value found at the end of `trail`. */
  function PutAt(v: Value, trail: seq<string>, k: string, x: Value): Value
    requires PathExists(v, trail) && HasProperties(At(v, trail))
    decreases |trail|
  {
    if trail == [] then Put(v, k, x)
    else Put(v, trail[0], PutAt(Get(v, trail[0]), trail[1..], k, x))
  }

  /** The deepest value defObjVal reaches. */
  function Holder(obj: Value, segs: seq<string>): Value
    requires Descend(obj, segs).Ok?
  {
    At(obj, Descend(obj, segs).value)
  }

  /** What defObjVal computes: the new root and the value it returns. It
      stores `val(old)` under the last segment of the deepest value it
      reached. */
  function DefObj(obj: Value, str: string, val: Value -> Value): Result<(Value, Value), string> {
    var segs := Segments(str);
    match Descend(obj, segs)
    case Err(e) => Err(e)
    case Ok(trail) =>
      var holder := At(obj, trail);
      if !HasProperties(holder) then Err(NullPropertyError)
      else
        var last := segs[|segs| - 1];
        var stored := val(Get(holder, last));
        Ok((PutAt(obj, trail, last, stored), stored))
  }

  function PrefixTrail(trail: seq<string>, r: Result<seq<string>, string>): Result<seq<string>, string> {
    match r
    case Ok(t) => Ok(trail + t)
    case Err(e) => Err(e)
  }

  lemma PrefixTrailNil(r: Result<seq<string>, string>)
    ensures PrefixTrail([], r) == r
  {
    match r
    case Ok(t) => assert [] + t == t;
    case Err(_) =>
  }

  lemma PrefixTrailSnoc(trail: seq<string>, k: string, r: Result<seq<string>, string>)
    ensures PrefixTrail(trail, PrefixTrail([k], r)) == PrefixTrail(trail + [k], r)
  {
    match r
    case Ok(t) => assert trail + ([k] + t) == (trail + [k]) + t;
    case Err(_) =>
  }

  /** defObjVal: walks the segments, reassigning the current object, then
      writes the last segment of the object it ended on. */
  method DefObjVal(obj: Value, str: string, val: Value -> Value) returns (r: Result<(Value, Value), string>)
    ensures r == DefObj(obj, str, val)
  {
    var segs := Segments(str);
    var walked := DescendLoop(obj, segs);
    if walked.Err? {
      return Err(walked.error);
    }
    var (cur, trail) := walked.value;
    if !HasProperties(cur) {
      return Err(NullPropertyError);
    }
    var last := segs[|segs| - 1];
    var stored := val(Get(cur, last));
    r := Ok((PutAt(obj, trail, last, stored), stored));
  }

  /** The loop of defObjVal: the object it ends on and the path to it. */
  method DescendLoop(obj: Value, segs: seq<string>) returns (r: Result<(Value, seq<string>), string>)
    ensures r.Err? ==> Descend(obj, segs) == Err(r.error)
    ensures r.Ok? ==> Descend(obj, segs) == Ok(r.value.1) && PathExists(obj, r.value.1)
                      && r.value.0 == At(obj, r.value.1)
  {
    var cur := obj;
    var trail: seq<string> := [];
    var i := 0;
    assert segs[0..] == segs;
    PrefixTrailNil(Descend(obj, segs));
    while i < |segs|
      invariant 0 <= i <= |segs|
      invariant PathExists(obj, trail) && cur == At(obj, trail)
      invariant trail != [] ==> IsObjectType(cur)
      invariant Descend(obj, segs) == PrefixTrail(trail, Descend(cur, segs[i..]))
    {
      assert segs[i..][1..] == segs[i + 1..];
      if !HasProperties(cur) {
        return Err(InOperatorError);
      }
      if Has(cur, segs[i]) && IsObjectType(Get(cur, segs[i])) {
        AtSnoc(obj, trail, segs[i]);
        assert Descend(cur, segs[i..]) == PrefixTrail([segs[i]], Descend(Get(cur, segs[i]), segs[i + 1..]));
        PrefixTrailSnoc(trail, segs[i], Descend(Get(cur, segs[i]), segs[i + 1..]));
        cur := Get(cur, segs[i]);
        trail := trail + [segs[i]];
      }
      i := i + 1;
    }
    assert Descend(cur, segs[i..]) == Ok([]);
    assert trail + [] == trail;
    return Ok((cur, trail));
  }

  lemma {:induction false} PutAtReads(v: Value, trail: seq<string>, k: string, x: Value)
    requires PathExists(v, trail) && HasProperties(At(v, trail))
    ensures PathExists(PutAt(v, trail, k, x), trail + [k])
    ensures At(PutAt(v, trail, k, x), trail + [k]) == x
    decreases |trail|
  {
    if trail != [] {
      PutAtReads(Get(v, trail[0]), trail[1..], k, x);
      assert (trail + [k])[1..] == trail[1..] + [k];
    }
  }

  /** defObjVal returns the value it stored, and reading the path it wrote
      (the keys it descended through, then the last segment) gives that value
      back. */
  lemma DefObjReadBack(obj: Value, str: string, val: Value -> Value)
    requires DefObj(obj, str, val).Ok?
    ensures var segs := Segments(str);
            var trail := Descend(obj, segs).value;
            var (root, stored) := DefObj(obj, str, val).value;
            stored == val(Get(Holder(obj, segs), segs[|segs| - 1]))
            && Walk(root, trail + [segs[|segs| - 1]]) == Ok(stored)
  {
    var segs := Segments(str);
    var trail := Descend(obj, segs).value;
    var last := segs[|segs| - 1];
    var stored := val(Get(At(obj, trail), last));
    PutAtReads(obj, trail, last, stored);
    WalkExisting(PutAt(obj, trail, last, stored), trail + [last]);
  }

  /** A one-segment path whose property holds an object (an array
      included): defObjVal enters that object and writes the key inside it,
      so the property keeps the same object, only extended by the key. */
  lemma DefObjObjectLeaf(obj: Value, k: string, val: Value -> Value)
    requires '[' !in k && '.' !in k
    requires HasProperties(obj) && Has(obj, k)
    requires Get(obj, k).Arr? || Get(obj, k).Obj?
    ensures DefObj(obj, k, val).Ok?
    ensures var inner := Get(obj, k);
            DefObj(obj, k, val).value == (Put(obj, k, Put(inner, k, val(Get(inner, k)))), val(Get(inner, k)))
  {
    PlainPathSegments(k);
    var segs := [k];
    assert segs[1..] == [];
    assert Descend(Get(obj, k), []) == Ok([]);
    assert [k] + [] == [k];
    assert Descend(obj, segs) == Ok([k]);
    assert At(obj, [k]) == Get(obj, k);
    assert PutAt(Get(obj, k), [], k, val(Get(Get(obj, k), k))) == Put(Get(obj, k), k, val(Get(Get(obj, k), k)));
  }

  /** A one-segment path whose property is absent or not an object:
      defObjVal replaces the property with `val(old)`. */
  lemma DefObjPlainLeaf(obj: Value, k: string, val: Value -> Value)
    requires '[' !in k && '.' !in k
    requires HasProperties(obj)
    requires !(Has(obj, k) && IsObjectType(Get(obj, k)))
    ensures DefObj(obj, k, val) == Ok((Put(obj, k, val(Get(obj, k))), val(Get(obj, k))))
  {
    PlainPathSegments(k);
    var segs := [k];
    assert segs[1..] == [];
    assert Descend(obj, segs) == Descend(obj, []);
  }

  // ---------------------------------------------------------------------
  // escapeRegExpChars(text)

  /** The characters the character class `[|\\{}()[\]^$+*?.]` matches. */
  predicate IsRegExpSpecial(c: char) {
    c in "|\\{}()[]^$+*?."
  }

  /** One backslash before each special character, every other character
      kept as it is. */
  function EscapeRegExpChars(text: string): string {
    if text == [] then []
    else (if IsRegExpSpecial(text[0]) then ['\\', text[0]] else [text[0]]) + EscapeRegExpChars(text[1..])
  }

  /** Removes the backslash in front of each escaped character. */
  function Unescape(s: string): string {
    if s == [] then []
    else if s[0] == '\\' && |s| >= 2 then [s[1]] + Unescape(s[2..])
    else [s[0]] + Unescape(s[1..])
  }

  function CountSpecial(text: string): nat {
    if text == [] then 0 else (if IsRegExpSpecial(text[0]) then 1 else 0) + CountSpecial(text[1..])
  }

  /** Removing the inserted backslashes gives back the text. */
  lemma {:induction false} UnescapeEscape(text: string)
    ensures Unescape(EscapeRegExpChars(text)) == text
  {
    if text != [] {
      UnescapeEscape(text[1..]);
      var e := EscapeRegExpChars(text);
      if IsRegExpSpecial(text[0]) {
        assert e[2..] == EscapeRegExpChars(text[1..]);
      } else {
        assert text[0] != '\\';
        assert e[1..] == EscapeRegExpChars(text[1..]);
      }
    }
  }

  /** Exactly one character is added per special character. */
  lemma {:induction false} EscapeLength(text: string)
    ensures |EscapeRegExpChars(text)| == |text| + CountSpecial(text)
  {
    if text != [] {
      EscapeLength(text[1..]);
    }
  }

  /** Text without special characters is returned unchanged. */
  lemma {:induction false} EscapePlain(text: string)
    requires forall i :: 0 <= i < |text| ==> !IsRegExpSpecial(text[i])
    ensures EscapeRegExpChars(text) == text
  {
    if text != [] {
      EscapePlain(text[1..]);
    }
  }

  // ---------------------------------------------------------------------
  // parseTime(str)

  /** `t` starts with `k`. */
  predicate StartsWith(t: string, k: string)
    ensures StartsWith(t, k) ==> |k| <= |t| && t[..|k|] == k
  {
    k == [] || (t != [] && t[0] == k[0] && StartsWith(t[1..], k[1..]))
  }

  lemma {:induction false} StartsWithAppend(k: string, rest: string)
    ensures StartsWith(k + rest, k)
  {
    if k != [] {
      assert (k + rest)[1..] == k[1..] + rest;
      StartsWithAppend(k[1..], rest);
    }
  }

  /** The unit the alternation picks after a run of digits. The keys of
      MS_CONFIG are tried in their own order and the first one the text
      starts with wins; only the eight keys below can ever win, since each
      of the others starts with one of them listed earlier (see
      `ShadowedKeys`). So "sec", "min", "hour", "day", "week", "mon",
      "year" and their longer forms are read as their first letter, and
      "mon" as minutes. */
  function FirstUnit(t: string): (r: Option<(string, nat)>)
    ensures r.Some? ==> |r.value.0| > 0 && StartsWith(t, r.value.0)
  {
    if StartsWith(t, "ms") then Some(("ms", 1))
    else if StartsWith(t, "milliseconds") then Some(("milliseconds", 1))
    else if StartsWith(t, "s") then Some(("s", 1000))
    else if StartsWith(t, "m") then Some(("m", 60000))
    else if StartsWith(t, "h") then Some(("h", 3600000))
    else if StartsWith(t, "d") then Some(("d", 86400000))
    else if StartsWith(t, "w") then Some(("w", 604800000))
    else if StartsWith(t, "y") then Some(("y", 31536000000))
    else None
  }

  /** MS_CONFIG, in its declaration order. */
  const MsConfig: seq<(string, nat)> := [
    ("ms", 1), ("milliseconds", 1),
    ("s", 1000), ("sec", 1000), ("secs", 1000), ("second", 1000), ("seconds", 1000),
    ("m", 60000), ("min", 60000), ("mins", 60000), ("minute", 60000), ("minutes", 60000),
    ("h", 3600000), ("hour", 3600000), ("hours", 3600000),
    ("d", 86400000), ("day", 86400000), ("days", 86400000),
    ("w", 604800000), ("week", 604800000), ("weeks", 604800000),
    ("mon", 2592000000), ("month", 2592000000), ("months", 2592000000),
    ("y", 31536000000), ("year", 31536000000), ("years", 31536000000)]

  /** The first entry from index `i` on whose key the text starts with:
      how the alternation `(ms|milliseconds|s|...)` built from the keys in
      their own order picks its match. */
  function FirstKeyFrom(table: seq<(string, nat)>, i: nat, t: string): (r: Option<(string, nat)>)
    requires i <= |table|
    decreases |table| - i
  {
    if i == |table| then None
    else if StartsWith(t, table[i].0) then Some(table[i])
    else FirstKeyFrom(table, i + 1, t)
  }

  /** `FirstKeyFrom` finds the first entry whose key starts the text, and
      finds none exactly when no key from `i` on does. */
  lemma {:induction false} FirstKeyFromIsFirst(table: seq<(string, nat)>, i: nat, t: string)
    requires i <= |table|
    ensures FirstKeyFrom(table, i, t).None? <==> forall l :: i <= l < |table| ==> !StartsWith(t, table[l].0)
    ensures FirstKeyFrom(table, i, t).Some? ==>
              exists j :: i <= j < |table| && table[j] == FirstKeyFrom(table, i, t).value
                          && StartsWith(t, table[j].0)
                          && forall l :: i <= l < j ==> !StartsWith(t, table[l].0)
    decreases |table| - i
  {
    if i < |table| && !StartsWith(t, table[i].0) {
      FirstKeyFromIsFirst(table, i + 1, t);
    }
  }

  /** An entry whose key starts with a letter the text does not start
      with is passed over. */
  lemma SkipLetter(t: string, i: nat, c: char)
    requires i < |MsConfig| && MsConfig[i].0 != [] && MsConfig[i].0[0] == c && !StartsWith(t, [c])
    ensures FirstKeyFrom(MsConfig, i, t) == FirstKeyFrom(MsConfig, i + 1, t)
  {
    var k := MsConfig[i].0;
    assert !StartsWith(t, k) by {
      if StartsWith(t, k) {
        assert StartsWith(t[1..], []);
      }
    }
  }

  lemma {:induction false} SkipRun(t: string, i: nat, j: nat, c: char)
    requires i <= j <= |MsConfig| && !StartsWith(t, [c])
    requires forall l :: i <= l < j ==> MsConfig[l].0 != [] && MsConfig[l].0[0] == c
    ensures FirstKeyFrom(MsConfig, i, t) == FirstKeyFrom(MsConfig, j, t)
    decreases j - i
  {
    if i < j {
      SkipLetter(t, i, c);
      SkipRun(t, i + 1, j, c);
    }
  }

  lemma SkipFirstTwo(t: string)
    requires !StartsWith(t, "ms") && !StartsWith(t, "milliseconds")
    ensures FirstKeyFrom(MsConfig, 0, t) == FirstKeyFrom(MsConfig, 2, t)
  {
    assert MsConfig[0].0 == "ms" && MsConfig[1].0 == "milliseconds";
  }

  lemma RunS(t: string)
    requires !StartsWith(t, "s")
    ensures FirstKeyFrom(MsConfig, 2, t) == FirstKeyFrom(MsConfig, 7, t)
  {
    SkipRun(t, 2, 7, 's');
  }

  lemma RunM(t: string)
    requires !StartsWith(t, "m")
    ensures FirstKeyFrom(MsConfig, 7, t) == FirstKeyFrom(MsConfig, 12, t)
  {
    SkipRun(t, 7, 12, 'm');
  }

  lemma RunH(t: string)
    requires !StartsWith(t, "h")
    ensures FirstKeyFrom(MsConfig, 12, t) == FirstKeyFrom(MsConfig, 15, t)
  {
    SkipRun(t, 12, 15, 'h');
  }

  lemma RunD(t: string)
    requires !StartsWith(t, "d")
    ensures FirstKeyFrom(MsConfig, 15, t) == FirstKeyFrom(MsConfig, 18, t)
  {
    SkipRun(t, 15, 18, 'd');
  }

  lemma RunW(t: string)
    requires !StartsWith(t, "w")
    ensures FirstKeyFrom(MsConfig, 18, t) == FirstKeyFrom(MsConfig, 21, t)
  {
    SkipRun(t, 18, 21, 'w');
  }

  lemma RunMon(t: string)
    requires !StartsWith(t, "m")
    ensures FirstKeyFrom(MsConfig, 21, t) == FirstKeyFrom(MsConfig, 24, t)
  {
    SkipRun(t, 21, 24, 'm');
  }

  lemma RunY(t: string)
    requires !StartsWith(t, "y")
    ensures FirstKeyFrom(MsConfig, 24, t) == FirstKeyFrom(MsConfig, 27, t)
  {
    SkipRun(t, 24, 27, 'y');
  }

  lemma UnitS(t: string)
    requires !StartsWith(t, "ms") && !StartsWith(t, "milliseconds") && StartsWith(t, "s")
    ensures FirstKeyFrom(MsConfig, 0, t) == Some(("s", 1000))
  {
    SkipFirstTwo(t);
    assert MsConfig[2].0 == "s";
  }

  lemma UnitM(t: string)
    requires !StartsWith(t, "ms") && !StartsWith(t, "milliseconds") && !StartsWith(t, "s") && StartsWith(t, "m")
    ensures FirstKeyFrom(MsConfig, 0, t) == Some(("m", 60000))
  {
    SkipFirstTwo(t);
    RunS(t);
    assert MsConfig[7].0 == "m";
  }

  lemma UnitH(t: string)
    requires !StartsWith(t, "ms") && !StartsWith(t, "milliseconds") && !StartsWith(t, "s") && !StartsWith(t, "m") && StartsWith(t, "h")
    ensures FirstKeyFrom(MsConfig, 0, t) == Some(("h", 3600000))
  {
    SkipFirstTwo(t);
    RunS(t);
    RunM(t);
    assert MsConfig[12].0 == "h";
  }

  lemma UnitD(t: string)
    requires !StartsWith(t, "ms") && !StartsWith(t, "milliseconds") && !StartsWith(t, "s") && !StartsWith(t, "m") && !StartsWith(t, "h") && StartsWith(t, "d")
    ensures FirstKeyFrom(MsConfig, 0, t) == Some(("d", 86400000))
  {
    SkipFirstTwo(t);
    RunS(t);
    RunM(t);
    RunH(t);
    assert MsConfig[15].0 == "d";
  }

  lemma UnitW(t: string)
    requires !StartsWith(t, "ms") && !StartsWith(t, "milliseconds") && !StartsWith(t, "s") && !StartsWith(t, "m") && !StartsWith(t, "h") && !StartsWith(t, "d") && StartsWith(t, "w")
    ensures FirstKeyFrom(MsConfig, 0, t) == Some(("w", 604800000))
  {
    SkipFirstTwo(t);
    RunS(t);
    RunM(t);
    RunH(t);
    RunD(t);
    assert MsConfig[18].0 == "w";
  }

  lemma UnitY(t: string)
    requires !StartsWith(t, "ms") && !StartsWith(t, "milliseconds") && !StartsWith(t, "s") && !StartsWith(t, "m") && !StartsWith(t, "h") && !StartsWith(t, "d") && !StartsWith(t, "w") && StartsWith(t, "y")
    ensures FirstKeyFrom(MsConfig, 0, t) == Some(("y", 31536000000))
  {
    SkipFirstTwo(t);
    RunS(t);
    RunM(t);
    RunH(t);
    RunD(t);
    RunW(t);
    RunMon(t);
    assert MsConfig[24].0 == "y";
  }

  lemma UnitNone(t: string)
    requires !StartsWith(t, "ms") && !StartsWith(t, "milliseconds") && !StartsWith(t, "s") && !StartsWith(t, "m") && !StartsWith(t, "h") && !StartsWith(t, "d") && !StartsWith(t, "w") && !StartsWith(t, "y")
    ensures FirstKeyFrom(MsConfig, 0, t) == None
  {
    SkipFirstTwo(t);
    RunS(t);
    RunM(t);
    RunH(t);
    RunD(t);
    RunW(t);
    RunMon(t);
    RunY(t);
  }

  /** Matching the alternation of all MS_CONFIG keys in order picks what
      `FirstUnit` picks: every key other than the eight tried there starts
      with one of them listed earlier, so the longer keys never win. */
  lemma ShadowedKeys(t: string)
    ensures FirstUnit(t) == FirstKeyFrom(MsConfig, 0, t)
  {
    if StartsWith(t, "ms") {
      assert MsConfig[0].0 == "ms";
    } else if StartsWith(t, "milliseconds") {
      assert MsConfig[0].0 == "ms" && MsConfig[1].0 == "milliseconds";
    } else if StartsWith(t, "s") {
      UnitS(t);
    } else if StartsWith(t, "m") {
      UnitM(t);
    } else if StartsWith(t, "h") {
      UnitH(t);
    } else if StartsWith(t, "d") {
      UnitD(t);
    } else if StartsWith(t, "w") {
      UnitW(t);
    } else if StartsWith(t, "y") {
      UnitY(t);
    } else {
      UnitNone(t);
    }
  }

  /** Length of the run of digits `s` starts with. */
  function DigitRun(s: string): (n: nat)
    ensures n <= |s| && AllDigits(s[..n])
    ensures n < |s| ==> !IsDigit(s[n])
  {
    if s != [] && IsDigit(s[0]) then
      var n := 1 + DigitRun(s[1..]);
      assert s[..n] == [s[0]] + s[1..][..n - 1];
      n
    else 0
  }

  /** One step of the scan for `(\d+)(ms|milliseconds|s|...)` at the start
      of `s`: the milliseconds the match there adds (count times unit) and
      how many characters the scan then moves on. A shorter digit run cannot
      help, since no unit starts with a digit; when no unit follows the
      digits the search resumes one character later. */
  function Scan(s: string): (r: (nat, nat))
    requires s != []
    ensures 0 < r.1 <= |s|
  {
    if IsDigit(s[0]) then
      var j := DigitRun(s);
      match FirstUnit(s[j..])
      case Some((unit, ms)) => (DigitsValue(s[..j]) * ms, j + |unit|)
      case None => (0, 1)
    else (0, 1)
  }

  /** The total parseTime accumulates over all matches. */
  function TimeSum(s: string): nat
    decreases |s|
  {
    if s == [] then 0 else Scan(s).0 + TimeSum(s[Scan(s).1..])
  }

  /** parseTime: adds count times unit for every match, and gives `null`
      (here `None`) when the total is 0. */
  method ParseTime(str: string) returns (r: Option<nat>)
    ensures r.None? <==> TimeSum(str) == 0
    ensures r.Some? ==> r.value == TimeSum(str)
  {
    var time := 0;
    var i := 0;
    while i < |str|
      invariant 0 <= i <= |str|
      invariant time + TimeSum(str[i..]) == TimeSum(str)
      decreases |str| - i
    {
      var rest := str[i..];
      if IsDigit(rest[0]) {
        var j := DigitRun(rest);
        match FirstUnit(rest[j..]) {
          case Some((unit, ms)) =>
            ScanMatch(str, i, j, unit, ms);
            var add := DigitsValue(rest[..j]) * ms;
            assert time + add + TimeSum(str[i + j + |unit|..]) == TimeSum(str);
            time := time + add;
            i := i + j + |unit|;
          case None =>
            ScanSkip(str, i);
            assert time + TimeSum(str[i + 1..]) == TimeSum(str);
            i := i + 1;
        }
      } else {
        ScanSkip(str, i);
        assert time + TimeSum(str[i + 1..]) == TimeSum(str);
        i := i + 1;
      }
    }
    r := if time == 0 then None else Some(time);
  }

  /** A match at position `i` adds count times unit and moves past the unit. */
  lemma ScanMatch(str: string, i: nat, j: nat, unit: string, ms: nat)
    requires i < |str| && IsDigit(str[i..][0]) && j == DigitRun(str[i..])
    requires FirstUnit(str[i..][j..]) == Some((unit, ms))
    ensures i + j + |unit| <= |str|
    ensures TimeSum(str[i..]) == DigitsValue(str[i..][..j]) * ms + TimeSum(str[i + j + |unit|..])
  {
    var rest := str[i..];
    var v := DigitsValue(rest[..j]) * ms;
    var sc := Scan(rest);
    assert sc == (v, j + |unit|);
    assert rest[sc.1..] == str[i + j + |unit|..];
    TimeSumStep(rest);
  }

  /** Without a match at position `i` the scan moves on by one character. */
  lemma ScanSkip(str: string, i: nat)
    requires i < |str|
    requires !IsDigit(str[i..][0]) || FirstUnit(str[i..][DigitRun(str[i..])..]).None?
    ensures TimeSum(str[i..]) == TimeSum(str[i + 1..])
  {
    var rest := str[i..];
    assert Scan(rest) == (0, 1);
    assert rest[1..] == str[i + 1..];
    TimeSumStep(rest);
  }

  lemma {:induction false} DigitRunOf(d: string, t: string)
    requires AllDigits(d)
    requires t == [] || !IsDigit(t[0])
    ensures DigitRun(d + t) == |d|
  {
    if d != [] {
      assert (d + t)[1..] == d[1..] + t;
      DigitRunOf(d[1..], t);
    }
  }

  /** A run of digits directly followed by a unit contributes count times
      that unit, and the scan goes on after the unit. */
  lemma DigitsThenUnit(d: string, t: string, unit: string, ms: nat)
    requires |d| > 0 && AllDigits(d)
    requires t == [] || !IsDigit(t[0])
    requires FirstUnit(t) == Some((unit, ms))
    ensures TimeSum(d + t) == DigitsValue(d) * ms + TimeSum(t[|unit|..])
  {
    var s := d + t;
    DigitRunOf(d, t);
    assert s[|d|..] == t;
    assert s[..|d|] == d;
    assert s[|d| + |unit|..] == t[|unit|..];
    var v := DigitsValue(d) * ms;
    var sc := Scan(s);
    assert sc == (v, |d| + |unit|);
    TimeSumStep(s);
    assert s[sc.1..] == t[|unit|..];
  }

  lemma TimeSumStep(s: string)
    requires s != []
    ensures TimeSum(s) == Scan(s).0 + TimeSum(s[Scan(s).1..])
  {
  }

  /** Digits followed by no unit contribute nothing. */
  lemma {:induction false} DigitsWithoutUnit(d: string, t: string)
    requires AllDigits(d)
    requires t == [] || !IsDigit(t[0])
    requires FirstUnit(t).None?
    ensures TimeSum(d + t) == TimeSum(t)
  {
    if d != [] {
      DigitRunOf(d, t);
      assert (d + t)[|d|..] == t;
      assert (d + t)[1..] == d[1..] + t;
      assert Scan(d + t) == (0, 1);
      DigitsWithoutUnit(d[1..], t);
    }
  }

  /** Text without digits has no matches, so parseTime gives `null`. */
  lemma {:induction false} NoDigitsNoTime(s: string)
    requires forall i :: 0 <= i < |s| ==> !IsDigit(s[i])
    ensures TimeSum(s) == 0
  {
    if s != [] {
      NoDigitsNoTime(s[1..]);
    }
  }

  /** "mon", "month" and "months" start with "m", which comes earlier in
      MS_CONFIG, so they are read as minutes; "ms" is tried before "m". */
  lemma MonthReadsAsMinutes(rest: string)
    ensures FirstUnit("mon" + rest) == Some(("m", 60000))
    ensures FirstUnit("ms" + rest) == Some(("ms", 1))
  {
    var t := "mon" + rest;
    assert t[0] == 'm' && t[1] == 'o';
    assert !StartsWith(t, "ms") && !StartsWith(t, "milliseconds");
    assert StartsWith(t, "m");
    StartsWithAppend("ms", rest);
  }

  lemma ParseTimeMinutes()
    ensures TimeSum("5m") == 300000
  {
    DigitsThenUnit("5", "m", "m", 60000);
    assert "5" + "m" == "5m";
  }

  lemma ParseTimeHoursAndMinutes()
    ensures TimeSum("1h30m") == 5400000
  {
    ThirtyMinutes();
    DigitsThenUnit("1", "h30m", "h", 3600000);
    assert "1" + "h30m" == "1h30m";
    assert "h30m"[1..] == "30m";
  }

  lemma ThirtyMinutes()
    ensures TimeSum("30m") == 1800000
  {
    DigitsThenUnit("30", "m", "m", 60000);
    assert "30" + "m" == "30m";
  }

  lemma ParseTimeNothing()
    ensures TimeSum("5") == 0 && TimeSum("abc") == 0 && TimeSum("0s") == 0
  {
    DigitsWithoutUnit("5", "");
    assert "5" + "" == "5";
    NoDigitsNoTime("abc");
    DigitsThenUnit("0", "s", "s", 1000);
    assert "0" + "s" == "0s";
  }

  lemma ParseTimeMonths()
    ensures TimeSum("2mon") == 120000
  {
    MonthReadsAsMinutes("");
    assert "mon" + "" == "mon";
    DigitsThenUnit("2", "mon", "m", 60000);
    assert "2" + "mon" == "2mon";
    assert "mon"[1..] == "on";
    NoDigitsNoTime("on");
  }
}
