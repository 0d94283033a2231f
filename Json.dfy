/**
 * Parsed JSON values as JavaScript sees them after `JSON.parse`, with the
 * JavaScript operations the scripts apply to them: truthiness, `typeof`,
 * property access and the string conversion of template literals.
 */
module Json {
  import opened Wrappers
  import opened Strings
  import opened OrderedMaps

  /** Numbers are integers here; fractions, exponents and NaN are not modelled. */
  datatype Json =
    | JNull
    | JBool(b: bool)
    | JNum(n: int)
    | JStr(s: string)
    | JArr(items: seq<Json>)
    | JObj(obj: OrderedMap<string, Json>)

  /** A plain object: string keys in insertion order. */
  type JsonObject = OrderedMap<string, Json>

  /** A property read `object[key]`, where `None` is `undefined`. */
  function Property(o: JsonObject, key: string): Option<Json> {
    o.Get(key)
  }

  /** `Boolean(v)`: `undefined`, `null`, `false`, `0` and `""` are falsy. */
  predicate Truthy(v: Option<Json>) {
    match v
    case None => false
    case Some(JNull) => false
    case Some(JBool(b)) => b
    case Some(JNum(n)) => n != 0
    case Some(JStr(s)) => s != ""
    case Some(JArr(_)) => true
    case Some(JObj(_)) => true
  }

  /** `typeof v`. */
  function TypeOf(v: Option<Json>): (t: string)
    ensures t in {"undefined", "object", "boolean", "number", "string"}
  {
    match v
    case None => "undefined"
    case Some(JNull) => "object"
    case Some(JBool(_)) => "boolean"
    case Some(JNum(_)) => "number"
    case Some(JStr(_)) => "string"
    case Some(JArr(_)) => "object"
    case Some(JObj(_)) => "object"
  }

  /** `typeof v === "string"` holds exactly for strings. */
  lemma TypeOfString(v: Option<Json>)
    ensures TypeOf(v) == "string" <==> v.Some? && v.value.JStr?
  {
  }

  /** `typeof v === "object"` holds for `null`, arrays and objects. */
  lemma TypeOfObject(v: Option<Json>)
    ensures TypeOf(v) == "object" <==> v.Some? && (v.value.JNull? || v.value.JArr? || v.value.JObj?)
  {
  }

  /** The names every plain object inherits from `Object.prototype`. */
  function ObjectPrototypeMembers(): set<string> {
    {
      "constructor", "__defineGetter__", "__defineSetter__", "hasOwnProperty",
      "__lookupGetter__", "__lookupSetter__", "isPrototypeOf", "propertyIsEnumerable",
      "toString", "valueOf", "__proto__", "toLocaleString"
    }
  }

  /** The names an array inherits from `Array.prototype` (ECMAScript 2023), besides `length`. */
  function ArrayPrototypeMembers(): set<string> {
    {
      "at", "concat", "copyWithin", "entries", "every", "fill", "filter", "find", "findIndex",
      "findLast", "findLastIndex", "flat", "flatMap", "forEach", "includes", "indexOf", "join",
      "keys", "lastIndexOf", "map", "pop", "push", "reduce", "reduceRight", "reverse", "shift",
      "slice", "some", "sort", "splice", "toLocaleString", "toReversed", "toSorted", "toSpliced",
      "toString", "unshift", "values", "with", "constructor"
    }
  }

  /**
   * What a property read returns: a value of the parsed JSON, a member
   * inherited from a prototype (a function, or the prototype object itself
   * for "__proto__"), or `undefined`.
   */
  datatype Read = Found(value: Json) | Inherited | Absent

  /** `Boolean(value[key])`: an inherited member is a function or an object, so it is truthy. */
  predicate ReadTruthy(r: Read) {
    match r
    case Found(v) => Truthy(Some(v))
    case Inherited => true
    case Absent => false
  }

  /**
   * `value[key]` on a value whose `typeof` is "object": for an object its own
   * property, else an `Object.prototype` member; for an array its `length`,
   * an `Array.prototype` or `Object.prototype` member, or an element under its
   * canonical decimal index; a `TypeError` for `null`. (No prototype name is
   * a decimal index, so the order of the array tests does not matter.)
   */
  function Member(value: Json, key: string): (r: Result<Read, Exception>)
    requires TypeOf(Some(value)) == "object"
    ensures r.Failure? <==> value.JNull?
    ensures r.Failure? ==> r.error.TypeError?
    ensures value.JObj? && Property(value.obj, key).Some? ==> r == Success(Found(Property(value.obj, key).value))
    ensures value.JObj? && Property(value.obj, key).None? ==>
      r == Success(if key in ObjectPrototypeMembers() then Inherited else Absent)
    ensures value.JArr? && key == "length" ==> r == Success(Found(JNum(|value.items|)))
    ensures value.JArr? && key != "length" && (key in ArrayPrototypeMembers() || key in ObjectPrototypeMembers()) ==>
      r == Success(Inherited)
    ensures value.JArr? && r.Success? && r.value.Found? && key != "length" ==>
      exists i :: 0 <= i < |value.items| && NatToString(i) == key && r.value.value == value.items[i]
  {
    match value
    case JNull => Failure(TypeError("Cannot read properties of null (reading '" + key + "')"))
    case JArr(items) =>
      if key == "length" then Success(Found(JNum(|items|)))
      else if key in ArrayPrototypeMembers() || key in ObjectPrototypeMembers() then Success(Inherited)
      else
        var index := DigitsValue(key);
        if index >= 0 && NatToString(index) == key && index < |items| then Success(Found(items[index]))
        else Success(Absent)
    case JObj(o) =>
      if Property(o, key).Some? then Success(Found(Property(o, key).value))
      else if key in ObjectPrototypeMembers() then Success(Inherited)
      else Success(Absent)
  }

  /**
   * Reading an array under a name other than `length` or a prototype
   * member finds the element whose decimal index is that name.
   */
  lemma ArrayElementRead(items: seq<Json>, key: string, i: nat)
    requires i < |items| && NatToString(i) == key
    requires key != "length" && key !in ArrayPrototypeMembers() && key !in ObjectPrototypeMembers()
    ensures Member(JArr(items), key) == Success(Found(items[i]))
  {
    DigitsValueOfNatToString(i);
  }

  /** `String(v)` as a template literal `${v}` writes it. */
  function ToDisplayString(v: Option<Json>): string {
    match v
    case None => "undefined"
    case Some(j) => JsonToDisplayString(j)
  }

  function JsonToDisplayString(j: Json): string
    decreases j, 1
  {
    match j
    case JNull => "null"
    case JBool(b) => if b then "true" else "false"
    case JNum(n) => IntToString(n)
    case JStr(s) => s
    case JArr(items) => ArrayToDisplayString(j, items)
    case JObj(_) => "[object Object]"
  }

  /** `String(array)` is `array.join(",")`, where `null` elements become "". */
  function ArrayToDisplayString(ghost parent: Json, items: seq<Json>): string
    requires forall i :: 0 <= i < |items| ==> items[i] < parent
    decreases parent, 0, |items|
  {
    if |items| == 0 then ""
    else
      var init := ArrayToDisplayString(parent, items[..|items| - 1]);
      var last := items[|items| - 1];
      var lastText := if last.JNull? then "" else JsonToDisplayString(last);
      if |items| == 1 then lastText else init + "," + lastText
  }

  /** A string shows as itself; a missing value shows as "undefined". */
  lemma DisplayStringOfStrings(s: string)
    ensures ToDisplayString(Some(JStr(s))) == s
    ensures ToDisplayString(None) == "undefined"
  {
  }

  /** `JSON.stringify(s)` for a string: quoted, with the escapes JSON requires. */
  function Quote(s: string): (q: string)
    ensures |q| >= 2 && q[0] == '"' && q[|q| - 1] == '"'
  {
    "\"" + EscapeChars(s) + "\""
  }

  function EscapeChars(s: string): string
    decreases |s|
  {
    if |s| == 0 then "" else EscapeChars(s[..|s| - 1]) + EscapeChar(s[|s| - 1])
  }

  const BACKSPACE: char := 8 as char
  const FORM_FEED: char := 12 as char

  function EscapeChar(c: char): string {
    if c == '"' then "\\\""
    else if c == '\\' then "\\\\"
    else if c == BACKSPACE then "\\b"
    else if c == FORM_FEED then "\\f"
    else if c == '\n' then "\\n"
    else if c == '\r' then "\\r"
    else if c == '\t' then "\\t"
    else if c < ' ' then "\\u00" + [HexDigit(c as int / 16), HexDigit(c as int % 16)]
    else [c]
  }

  function HexDigit(d: nat): char
    requires d < 16
  {
    "0123456789abcdef"[d]
  }

  /** The decoding `JSON.parse` applies to the characters between the quotes. */
  function UnescapeChars(s: string): string
    decreases |s|
  {
    if |s| == 0 then "" else [DecodeHead(s)] + UnescapeChars(s[HeadLength(s)..])
  }

  /** The length of the escape sequence (or plain character) that starts `s`. */
  function HeadLength(s: string): (n: nat)
    requires |s| > 0
    ensures 1 <= n <= |s|
  {
    if s[0] != '\\' || |s| < 2 then 1 else if s[1] == 'u' && |s| >= 6 then 6 else 2
  }

  /** The character the escape sequence at the start of `s` stands for. */
  function DecodeHead(s: string): char
    requires |s| > 0
  {
    if s[0] != '\\' || |s| < 2 then s[0]
    else if s[1] == 'u' && |s| >= 6 then (HexValue(s[4]) * 16 + HexValue(s[5])) as char
    else
      var e := s[1];
      if e == 'b' then BACKSPACE else if e == 'f' then FORM_FEED else if e == 'n' then '\n'
      else if e == 'r' then '\r' else if e == 't' then '\t' else e
  }

  /** The sequence at the start of `s` is complete: a backslash has all its characters. */
  predicate HeadComplete(s: string)
    requires |s| > 0
  {
    s[0] != '\\' || (|s| >= 2 && (s[1] != 'u' || |s| >= 6))
  }

  /** Only the first `HeadLength` characters decide a complete head sequence. */
  lemma HeadOfAppend(t: string, e: string)
    requires |t| > 0 && HeadComplete(t)
    ensures HeadComplete(t + e)
    ensures HeadLength(t + e) == HeadLength(t)
    ensures DecodeHead(t + e) == DecodeHead(t)
  {
    var u := t + e;
    assert u[0] == t[0];
    if t[0] == '\\' {
      assert u[1] == t[1];
      if t[1] == 'u' {
        assert u[4] == t[4] && u[5] == t[5];
      }
    }
  }

  function HexValue(c: char): (v: nat)
    ensures v < 16
  {
    if '0' <= c <= '9' then c as int - '0' as int
    else if 'a' <= c <= 'f' then c as int - 'a' as int + 10
    else 0
  }

  /** Decoding the escapes gives back the original characters. */
  lemma {:induction false} UnescapeEscape(s: string)
    ensures UnescapeChars(EscapeChars(s)) == s
    decreases |s|
  {
    if |s| > 0 {
      var init := s[..|s| - 1];
      var c := s[|s| - 1];
      EscapeCharsWellEscaped(init);
      UnescapeOne(c);
      UnescapeAppend(EscapeChars(init), EscapeChar(c));
      UnescapeEscape(init);
      assert init + [c] == s;
    }
  }

  /** Decoding distributes over the concatenation of well-escaped texts. */
  lemma {:induction false} UnescapeAppend(t: string, e: string)
    requires WellEscaped(t) && WellEscaped(e)
    ensures WellEscaped(t + e)
    ensures UnescapeChars(t + e) == UnescapeChars(t) + UnescapeChars(e)
    decreases |t|
  {
    var u := t + e;
    if |t| == 0 {
      assert u == e;
    } else {
      HeadOfAppend(t, e);
      var n := HeadLength(t);
      var rest := t[n..];
      assert u[n..] == rest + e;
      UnescapeAppend(rest, e);
      var h := [DecodeHead(t)];
      assert UnescapeChars(u) == h + (UnescapeChars(rest) + UnescapeChars(e));
      assert UnescapeChars(t) == h + UnescapeChars(rest);
      AppendAssoc(h, UnescapeChars(rest), UnescapeChars(e));
    }
  }

  lemma UnescapeOne(c: char)
    ensures WellEscaped(EscapeChar(c))
    ensures UnescapeChars(EscapeChar(c)) == [c]
  {
    var e := EscapeChar(c);
    if c < ' ' && c != BACKSPACE && c != FORM_FEED && c != '\n' && c != '\r' && c != '\t' {
      var hi, lo := c as int / 16, c as int % 16;
      assert e[6..] == [];
      assert HexValue(HexDigit(hi)) == hi;
      assert HexValue(HexDigit(lo)) == lo;
      assert (hi * 16 + lo) as char == c;
    } else if e != [c] {
      assert e[2..] == [];
    } else {
      assert e[1..] == [];
    }
  }

  /** Every backslash starts a complete escape sequence, as `EscapeChars` writes them. */
  predicate WellEscaped(t: string)
    decreases |t|
  {
    |t| == 0 || (HeadComplete(t) && WellEscaped(t[HeadLength(t)..]))
  }

  /** Everything `EscapeChars` writes is well escaped. */
  lemma {:induction false} EscapeCharsWellEscaped(s: string)
    ensures WellEscaped(EscapeChars(s))
    decreases |s|
  {
    if |s| > 0 {
      EscapeCharsWellEscaped(s[..|s| - 1]);
      UnescapeOne(s[|s| - 1]);
      UnescapeAppend(EscapeChars(s[..|s| - 1]), EscapeChar(s[|s| - 1]));
    }
  }
}
