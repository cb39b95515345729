/** `json.dumps(value, sort_keys=True, ensure_ascii=False, separators=(",", ":"))`,
    the canonical text that every digest of the repository is taken over. */
module CanonicalJson {
  import opened Prelude
  import opened StringOrder

  /** JSON data as Python holds it after `json.loads`, without floats. */
  datatype Json =
    | Null
    | Bool(b: bool)
    | Num(n: int)
    | Str(s: string)
    | Arr(items: seq<Json>)
    | Obj(fields: map<string, Json>)

  type Dict = map<string, Json>

  /** `d.get(name)` */
  function Get(d: Dict, name: string): Json {
    if name in d then d[name] else Null
  }

  /** Python's truth value of JSON data. */
  predicate Truthy(v: Json) {
    match v
    case Null => false
    case Bool(b) => b
    case Num(n) => n != 0
    case Str(s) => s != ""
    case Arr(items) => items != []
    case Obj(fields) => fields != map[]
  }

  /** The false values of Python, one of each kind. */
  lemma FalsyValues(v: Json)
    ensures Truthy(v) <==> v !in {Null, Bool(false), Num(0), Str(""), Arr([]), Obj(map[])}
  {
  }

  /** `v == n` for an integer: Python's True and False equal 1 and 0. */
  predicate EqualsInt(v: Json, n: int) {
    v == Num(n) || (v.Bool? && n == if v.b then 1 else 0)
  }

  /** `isinstance(v, int)`: a boolean is an integer. */
  predicate IsInt(v: Json) {
    v.Num? || v.Bool?
  }

  /** The integer value of a number or boolean. */
  function IntValue(v: Json): int {
    match v
    case Num(n) => n
    case Bool(b) => if b then 1 else 0
    case _ => 0
  }

  /** `True` is the number one and `False` is zero, and nothing else is a number. */
  lemma IntegersEqual(v: Json, n: int)
    ensures EqualsInt(v, n) <==> v == Num(n) || (v == Bool(true) && n == 1) || (v == Bool(false) && n == 0)
    ensures IsInt(v) ==> EqualsInt(v, IntValue(v))
    ensures EqualsInt(v, n) ==> IsInt(v) && IntValue(v) == n
  {
  }

  // ----- numbers -----

  function Digit(d: nat): char
    requires d < 10
  {
    "0123456789"[d]
  }

  predicate IsDigit(c: char) {
    '0' <= c <= '9'
  }

  function PrintNat(n: nat): (r: string)
    ensures r != "" && forall c :: c in r ==> IsDigit(c)
  {
    if n < 10 then [Digit(n)] else PrintNat(n / 10) + [Digit(n % 10)]
  }

  function PrintInt(n: int): string {
    if n < 0 then "-" + PrintNat(-n) else PrintNat(n)
  }

  function Decimal(s: string): int {
    if s == "" then 0 else 10 * Decimal(s[..|s| - 1]) + (s[|s| - 1] as int - '0' as int)
  }

  lemma {:induction false} DecimalOfPrint(n: nat)
    ensures Decimal(PrintNat(n)) == n
  {
    if n >= 10 {
      DecimalOfPrint(n / 10);
      assert PrintNat(n)[..|PrintNat(n)| - 1] == PrintNat(n / 10);
    } else {
      assert PrintNat(n)[..0] == "";
    }
  }

  /** What may follow a value inside a canonical text. */
  predicate Ends(rest: string) {
    rest == "" || rest[0] in {',', ']', '}'}
  }

  function DigitRun(s: string): (n: nat)
    ensures n <= |s|
  {
    if s == "" || !IsDigit(s[0]) then 0 else 1 + DigitRun(s[1..])
  }

  lemma {:induction false} RunOfDigits(a: string, s: string)
    requires Ends(s) && forall c :: c in a ==> IsDigit(c)
    ensures DigitRun(a + s) == |a|
  {
    if a == "" {
      assert a + s == s;
    } else {
      RunOfDigits(a[1..], s);
      assert (a + s)[1..] == a[1..] + s;
      assert (a + s)[0] == a[0] && a[0] in a;
    }
  }

  // ----- strings: section 7 of RFC 8259 -----

  function HexDigit(d: nat): char
    requires d < 16
  {
    "0123456789abcdef"[d]
  }

  function EscapeChar(c: char): (r: string)
    ensures r != "" && r[0] != '"'
  {
    if c == '"' then "\\\""
    else if c == '\\' then "\\\\"
    else if c == '\n' then "\\n"
    else if c == '\r' then "\\r"
    else if c == '\t' then "\\t"
    else if c as int == 8 then "\\b"
    else if c as int == 12 then "\\f"
    else if c as int < 32 then "\\u00" + [HexDigit(c as int / 16), HexDigit(c as int % 16)]
    else [c]
  }

  /** Only quotes, backslashes and control characters are escaped, and in six
      characters only the controls without a short escape. */
  lemma EscapesOnlyControls(c: char)
    ensures EscapeChar(c) == [c] <==> c as int >= 32 && c !in {'"', '\\'}
    ensures |EscapeChar(c)| == 6 <==> c as int < 32 && c as int !in {8, 9, 10, 12, 13}
  {
  }

  /** The printed string without its opening quote. */
  function Escaped(s: string): string {
    if s == "" then "\"" else EscapeChar(s[0]) + Escaped(s[1..])
  }

  function Quote(s: string): string {
    "\"" + Escaped(s)
  }

  // ----- values -----

  function Print(v: Json): string
    decreases v, 1, 0
  {
    match v
    case Null => "null"
    case Bool(b) => if b then "true" else "false"
    case Num(n) => PrintInt(n)
    case Str(s) => Quote(s)
    case Arr(_) => "[" + PrintItems(v, 0)
    case Obj(fields) => "{" + PrintFields(v, SortedKeys(fields.Keys), 0)
  }

  /** The items of the array `v` from index `i`, with the closing bracket. */
  function PrintItems(v: Json, i: nat): string
    requires v.Arr? && i <= |v.items|
    decreases v, 0, |v.items| - i
  {
    if i == |v.items| then "]"
    else (if i == 0 then "" else ",") + Print(v.items[i]) + PrintItems(v, i + 1)
  }

  /** The members of the object `v` from key `i`, with the closing brace. */
  function PrintFields(v: Json, keys: seq<string>, i: nat): string
    requires v.Obj? && i <= |keys| && forall k :: k in keys ==> k in v.fields
    decreases v, 0, |keys| - i
  {
    if i == |keys| then "}"
    else (if i == 0 then "" else ",") + Quote(keys[i]) + ":" + Print(v.fields[keys[i]]) + PrintFields(v, keys, i + 1)
  }

  // ----- reading: sections 3 to 7 of RFC 8259, with sorted names only -----

  function ReadInt(t: string): Result<(Json, string)> {
    var sign := if t != "" && t[0] == '-' then 1 else 0;
    var end := sign + DigitRun(t[sign..]);
    if end == sign then Failure
    else
      var n := Decimal(t[sign..end]);
      Success((Num(if sign == 1 then -n else n), t[end..]))
  }

  predicate IsLowerHex(c: char) {
    IsDigit(c) || 'a' <= c <= 'f'
  }

  function HexValue(c: char): (n: nat)
    requires IsLowerHex(c)
    ensures n < 16
  {
    if IsDigit(c) then c as int - '0' as int else c as int - 'a' as int + 10
  }

  /** What follows a backslash: the character meant, and how long it is. */
  function ReadEscape(t: string): Result<(char, nat)> {
    if t == "" then Failure
    else if t[0] in {'"', '\\', '/'} then Success((t[0], 1))
    else if t[0] == 'b' then Success((8 as char, 1))
    else if t[0] == 't' then Success(('\t', 1))
    else if t[0] == 'n' then Success(('\n', 1))
    else if t[0] == 'f' then Success((12 as char, 1))
    else if t[0] == 'r' then Success(('\r', 1))
    else if t[0] == 'u' && |t| > 4 && forall i :: 1 <= i <= 4 ==> IsLowerHex(t[i]) then
      var n := 4096 * HexValue(t[1]) + 256 * HexValue(t[2]) + 16 * HexValue(t[3]) + HexValue(t[4]);
      if 0xd800 <= n < 0xe000 then Failure else Success((n as char, 5))
    else Failure
  }

  /** A string after its opening quote. */
  function ReadChars(t: string): (r: Result<(string, string)>)
    ensures r.Success? ==> |r.value.1| < |t|
    decreases |t|
  {
    if t == "" || t[0] as int < 32 then Failure
    else if t[0] == '"' then Success(("", t[1..]))
    else if t[0] != '\\' then
      var later :- ReadChars(t[1..]);
      Success(([t[0]] + later.0, later.1))
    else
      var escape :- ReadEscape(t[1..]);
      if escape.1 > |t| - 1 then Failure
      else
        var later :- ReadChars(t[1 + escape.1..]);
        Success(([escape.0] + later.0, later.1))
  }

  function ReadValue(t: string): (r: Result<(Json, string)>)
    ensures r.Success? ==> |r.value.1| < |t|
    decreases |t|, 0
  {
    if "null" <= t then Success((Null, t[4..]))
    else if "true" <= t then Success((Bool(true), t[4..]))
    else if "false" <= t then Success((Bool(false), t[5..]))
    else if "\"" <= t then
      var read :- ReadChars(t[1..]);
      Success((Str(read.0), read.1))
    else if "[]" <= t then Success((Arr([]), t[2..]))
    else if "[" <= t then
      var read :- ReadItems(t[1..]);
      Success((Arr(read.0), read.1))
    else if "{}" <= t then Success((Obj(map[]), t[2..]))
    else if "{" <= t then
      var read :- ReadMembers(t[1..], None);
      Success((Obj(read.0), read.1))
    else ReadInt(t)
  }

  /** One or more items, up to the closing bracket. */
  function ReadItems(t: string): (r: Result<(seq<Json>, string)>)
    ensures r.Success? ==> |r.value.1| < |t|
    decreases |t|, 1
  {
    var read :- ReadValue(t);
    var (v, rest) := read;
    if "]" <= rest then Success(([v], rest[1..]))
    else if "," <= rest then
      var later :- ReadItems(rest[1..]);
      Success(([v] + later.0, later.1))
    else Failure
  }

  /** One or more members up to the closing brace, each name greater than the
      one before. */
  function ReadMembers(t: string, before: Option<string>): (r: Result<(Dict, string)>)
    ensures r.Success? ==> |r.value.1| < |t|
    decreases |t|, 1
  {
    if !("\"" <= t) then Failure
    else
      var read :- ReadChars(t[1..]);
      var (name, colon) := read;
      if !(":" <= colon) || (before.Some? && !Less(before.value, name)) then Failure
      else
        var member :- ReadValue(colon[1..]);
        var (v, rest) := member;
        if "}" <= rest then Success((map[name := v], rest[1..]))
        else if "," <= rest then
          var later :- ReadMembers(rest[1..], Some(name));
          Success((later.0[name := v], later.1))
        else Failure
  }

  // ----- the reader gets back what was printed -----

  lemma NatReadsBack(n: nat, s: string)
    requires Ends(s)
    ensures var text := PrintNat(n) + s;
            && DigitRun(text) == |PrintNat(n)| && text[..|PrintNat(n)|] == PrintNat(n) && text[|PrintNat(n)|..] == s
            && Decimal(PrintNat(n)) == n && text != "" && IsDigit(text[0])
  {
    RunOfDigits(PrintNat(n), s);
    DecimalOfPrint(n);
    assert PrintNat(n)[0] in PrintNat(n);
  }

  lemma IntReadsBack(n: int, s: string)
    requires Ends(s)
    ensures ReadInt(PrintInt(n) + s) == Success((Num(n), s))
    ensures var text := PrintInt(n) + s; text != "" && (IsDigit(text[0]) || text[0] == '-')
  {
    hide PrintNat, Decimal, DigitRun;
    var digits, text := PrintNat(if n < 0 then -n else n), PrintInt(n) + s;
    NatReadsBack(if n < 0 then -n else n, s);
    if n < 0 {
      Slices("-", digits, s);
      assert text == "-" + digits + s;
    } else {
      Slices("", digits, s);
      assert text == "" + digits + s;
    }
  }

  lemma Slices(a: string, b: string, s: string)
    ensures var text := a + b + s;
            text[|a|..] == b + s && text[|a|..|a| + |b|] == b && text[|a| + |b|..] == s
  {
  }

  lemma EscapeReadsBack(c: char, s: string)
    ensures var text := EscapeChar(c) + s;
            if text[0] == '\\' then ReadEscape(text[1..]) == Success((c, |EscapeChar(c)| - 1)) else EscapeChar(c) == [c]
    ensures (EscapeChar(c) + s)[0] as int >= 32 && (EscapeChar(c) + s)[0] != '"'
  {
    var text := EscapeChar(c) + s;
    if |EscapeChar(c)| == 6 {
      assert text[1..][4] == HexDigit(c as int % 16) && text[1..][3] == HexDigit(c as int / 16);
      assert text[1..][0] == 'u' && text[1..][1] == '0' && text[1..][2] == '0';
    }
  }

  lemma {:induction false} CharsReadBack(x: string, s: string)
    ensures ReadChars(Escaped(x) + s) == Success((x, s))
  {
    hide EscapeChar, ReadEscape;
    var text := Escaped(x) + s;
    if x != "" {
      var head, later := EscapeChar(x[0]), Escaped(x[1..]) + s;
      assert text == head + later;
      EscapeReadsBack(x[0], later);
      CharsReadBack(x[1..], s);
      assert text[|head|..] == later;
      assert [x[0]] + x[1..] == x;
    }
  }

  lemma QuoteReadsBack(x: string, s: string)
    ensures var text := Quote(x) + s; "\"" <= text && ReadChars(text[1..]) == Success((x, s))
  {
    hide ReadChars, Escaped;
    CharsReadBack(x, s);
    assert (Quote(x) + s)[1..] == Escaped(x) + s;
  }

  /** No value starts with a closing bracket or brace. */
  lemma ValueStarts(v: Json, s: string)
    requires Ends(s)
    ensures var text := Print(v) + s; text != "" && text[0] !in {']', '}'}
  {
    if v.Num? {
      IntReadsBack(v.n, s);
    }
  }

  lemma ItemsEnd(v: Json, i: nat, s: string)
    requires v.Arr? && 0 < i <= |v.items|
    ensures var text := PrintItems(v, i) + s;
            && Ends(text)
            && (i == |v.items| ==> text == "]" + s)
            && (i < |v.items| ==> text == "," + (Print(v.items[i]) + (PrintItems(v, i + 1) + s)))
  {
  }

  /** A value without items or members. */
  lemma AtomReadsBack(v: Json, s: string)
    requires Ends(s) && (v.Arr? ==> v.items == []) && (v.Obj? ==> v.fields == map[])
    ensures ReadValue(Print(v) + s) == Success((v, s))
  {
    hide Quote, PrintInt, ReadChars, ReadInt, ReadItems, ReadMembers;
    var text := Print(v) + s;
    match v
    case Null => assert text[..4] == "null" && text[4..] == s;
    case Bool(b) => WordReads(if b then "true" else "false", s);
    case Num(n) => IntReadsBack(n, s);
    case Str(x) => QuoteReadsBack(x, s); assert text[0] == '"';
    case Arr(_) => Empty(v); assert text[..2] == "[]" && text[0] == '[' && text[2..] == s;
    case Obj(_) => Empty(v); assert text[..2] == "{}" && text[0] == '{' && text[2..] == s;
  }

  lemma Empty(v: Json)
    requires v == Arr([]) || v == Obj(map[])
    ensures Print(v) == if v.Arr? then "[]" else "{}"
  {
    if v.Arr? {
      assert PrintItems(v, 0) == "]" && Print(v) == "[" + PrintItems(v, 0);
    } else {
      assert PrintFields(v, [], 0) == "}" && Print(v) == "{" + PrintFields(v, [], 0);
    }
  }

  lemma WordReads(word: string, s: string)
    requires word in {"true", "false"}
    ensures ReadValue(word + s) == Success((Bool(word == "true"), s))
  {
    var text := word + s;
    assert text[..|word|] == word && text[0] == word[0] && text[|word|..] == s;
  }

  /** The reader inverts the printer, whatever may follow the value. */
  lemma {:induction false} ReadsBack(v: Json, s: string)
    requires Ends(s)
    ensures ReadValue(Print(v) + s) == Success((v, s))
    decreases v, 1, 0
  {
    hide ReadValue, SortedKeys;
    match v
    case Arr(items) =>
      if items != [] {
        ItemsReadBack(v, 0, s);
        ArrayReads(v, s);
      } else {
        AtomReadsBack(v, s);
      }
    case Obj(fields) =>
      var keys := SortedKeys(fields.Keys);
      if keys != [] {
        MembersReadBack(v, keys, 0, None, s);
        ObjectReads(v, keys, s);
      } else {
        assert forall k :: k in fields ==> k in keys;
        AtomReadsBack(v, s);
      }
    case _ => AtomReadsBack(v, s);
  }

  /** The text of the items from `i` on, without a leading comma. */
  function ItemsFrom(v: Json, i: nat, s: string): string
    requires v.Arr? && i < |v.items|
  {
    Print(v.items[i]) + (PrintItems(v, i + 1) + s)
  }

  lemma ArrayReads(v: Json, s: string)
    requires v.Arr? && v.items != [] && Ends(s)
    requires ReadItems(ItemsFrom(v, 0, s)) == Success((v.items, s))
    ensures ReadValue(Print(v) + s) == Success((v, s))
  {
    hide Print, ReadItems;
    var text := "[" + ItemsFrom(v, 0, s);
    ArrayText(v, s);
    ItemsEnd(v, 1, s);
    ValueStarts(v.items[0], PrintItems(v, 1) + s);
    assert text[1..] == ItemsFrom(v, 0, s) && text[0] == '[' && text[1] != ']';
  }

  lemma ArrayText(v: Json, s: string)
    requires v.Arr? && v.items != []
    ensures Print(v) + s == "[" + ItemsFrom(v, 0, s)
  {
    hide Print;
    assert PrintItems(v, 0) == "" + Print(v.items[0]) + PrintItems(v, 1);
    ArrayPrints(v);
  }

  lemma ArrayPrints(v: Json)
    requires v.Arr?
    ensures Print(v) == "[" + PrintItems(v, 0)
  {
  }

  lemma {:induction false} ItemsReadBack(v: Json, i: nat, s: string)
    requires v.Arr? && i < |v.items| && Ends(s)
    ensures ReadItems(ItemsFrom(v, i, s)) == Success((v.items[i..], s))
    decreases v, 0, |v.items| - i
  {
    hide Print, PrintItems, ReadValue;
    ItemsEnd(v, i + 1, s);
    ReadsBack(v.items[i], PrintItems(v, i + 1) + s);
    var rest := PrintItems(v, i + 1) + s;
    if i + 1 == |v.items| {
      assert rest[1..] == s && v.items[i..] == [v.items[i]];
    } else {
      ItemsReadBack(v, i + 1, s);
      assert rest[1..] == ItemsFrom(v, i + 1, s);
      assert v.items[i..] == [v.items[i]] + v.items[i + 1..];
    }
  }

  /** The text of the members from `i` on, without a leading comma. */
  function MembersFrom(v: Json, keys: seq<string>, i: nat, s: string): string
    requires v.Obj? && i < |keys| && forall k :: k in keys ==> k in v.fields
  {
    Quote(keys[i]) + (":" + (Print(v.fields[keys[i]]) + (PrintFields(v, keys, i + 1) + s)))
  }

  function Members(v: Json, keys: seq<string>): Dict
    requires v.Obj? && forall k :: k in keys ==> k in v.fields
  {
    map k | k in keys :: v.fields[k]
  }

  lemma FieldsEnd(v: Json, keys: seq<string>, i: nat, s: string)
    requires v.Obj? && i <= |keys| && forall k :: k in keys ==> k in v.fields
    ensures var text := PrintFields(v, keys, i) + s;
            && (i > 0 ==> Ends(text))
            && (i == |keys| ==> text == "}" + s)
            && (i < |keys| ==> text == (if i == 0 then "" else ",") + MembersFrom(v, keys, i, s))
  {
    hide Print, Escaped;
    if i < |keys| {
      Regroup(if i == 0 then "" else ",", Quote(keys[i]), Print(v.fields[keys[i]]), PrintFields(v, keys, i + 1), s);
    }
  }

  lemma Regroup(comma: string, name: string, value: string, rest: string, s: string)
    ensures comma + name + ":" + value + rest + s == comma + (name + (":" + (value + (rest + s))))
  {
  }

  lemma ObjectPrints(v: Json)
    requires v.Obj?
    ensures Print(v) == "{" + PrintFields(v, SortedKeys(v.fields.Keys), 0)
  {
  }

  lemma ObjectReads(v: Json, keys: seq<string>, s: string)
    requires v.Obj? && keys == SortedKeys(v.fields.Keys) && keys != [] && Ends(s)
    requires ReadMembers(MembersFrom(v, keys, 0, s), None) == Success((Members(v, keys[0..]), s))
    ensures ReadValue(Print(v) + s) == Success((v, s))
  {
    hide Print, PrintFields, ReadMembers, SortedKeys, Escaped;
    FieldsEnd(v, keys, 0, s);
    ObjectPrints(v);
    var members := MembersFrom(v, keys, 0, s);
    Tail("{", PrintFields(v, keys, 0), s);
    assert "" + members == members;
    BraceReads(members, s);
    assert Members(v, keys[0..]) == v.fields;
  }

  lemma Tail(head: string, body: string, s: string)
    ensures head + body + s == head + (body + s)
  {
  }

  lemma BraceReads(members: string, s: string)
    requires "\"" <= members && ReadMembers(members, None).Success?
    ensures var read := ReadMembers(members, None).value;
            ReadValue("{" + members) == Success((Obj(read.0), read.1))
  {
    hide ReadMembers;
    var text := "{" + members;
    assert text[1..] == members && text[1] == '"';
  }

  lemma {:induction false} MembersReadBack(v: Json, keys: seq<string>, i: nat, before: Option<string>, s: string)
    requires v.Obj? && i < |keys| && Ends(s) && StrictlySorted(keys) && forall k :: k in keys ==> k in v.fields
    requires before == if i == 0 then None else Some(keys[i - 1])
    ensures ReadMembers(MembersFrom(v, keys, i, s), before) == Success((Members(v, keys[i..]), s))
    decreases v, 0, |keys| - i
  {
    hide Print, PrintFields, ReadValue, ReadChars, Quote, Less;
    var name, value := keys[i], v.fields[keys[i]];
    var rest := PrintFields(v, keys, i + 1) + s;
    FieldsEnd(v, keys, i + 1, s);
    QuoteReadsBack(name, ":" + (Print(value) + rest));
    assert (":" + (Print(value) + rest))[1..] == Print(value) + rest;
    assert name in keys;
    ReadsBack(value, rest);
    if i + 1 == |keys| {
      assert rest[1..] == s && keys[i..] == [name];
      assert Members(v, keys[i..]) == map[name := value];
    } else {
      MembersReadBack(v, keys, i + 1, Some(name), s);
      assert rest[1..] == MembersFrom(v, keys, i + 1, s);
      assert keys[i..] == [name] + keys[i + 1..];
      assert Members(v, keys[i..]) == Members(v, keys[i + 1..])[name := value];
    }
  }

  /** Reading a printed value gives it back. */
  lemma PrintRoundTrip(v: Json)
    ensures ReadValue(Print(v)) == Success((v, ""))
  {
    hide Print, ReadValue;
    ReadsBack(v, "");
    assert Print(v) + "" == Print(v);
  }

  /** Canonical JSON is injective: two values with one text are one value. */
  lemma PrintInjective(a: Json, b: Json)
    requires Print(a) == Print(b)
    ensures a == b
  {
    hide Print, ReadValue;
    PrintRoundTrip(a);
    PrintRoundTrip(b);
  }

  /** A collision-free digest of the canonical text commits to the value. */
  lemma DigestCommits(digest: string -> string, a: Json, b: Json)
    requires Injective(digest)
    ensures digest(Print(a)) == digest(Print(b)) <==> a == b
  {
    if digest(Print(a)) == digest(Print(b)) {
      PrintInjective(a, b);
    }
  }

  // ----- the printed text is one line -----

  predicate OneLine(text: string) {
    '\n' !in text
  }

  lemma EscapeCharOneLine(c: char)
    ensures OneLine(EscapeChar(c))
  {
    if c as int < 32 {
      assert forall d :: 0 <= d < 16 ==> HexDigit(d) != '\n';
    }
  }

  lemma {:induction false} EscapedOneLine(s: string)
    ensures OneLine(Escaped(s))
  {
    hide EscapeChar;
    if s != "" {
      EscapeCharOneLine(s[0]);
      EscapedOneLine(s[1..]);
    }
  }

  lemma {:induction false} PrintOneLine(v: Json)
    ensures OneLine(Print(v))
    decreases v, 1, 0
  {
    match v
    case Str(s) => EscapedOneLine(s);
    case Arr(_) => ItemsOneLine(v, 0);
    case Obj(fields) => FieldsOneLine(v, SortedKeys(fields.Keys), 0);
    case _ =>
  }

  lemma {:induction false} ItemsOneLine(v: Json, i: nat)
    requires v.Arr? && i <= |v.items|
    ensures OneLine(PrintItems(v, i))
    decreases v, 0, |v.items| - i
  {
    hide Print;
    if i < |v.items| {
      PrintOneLine(v.items[i]);
      ItemsOneLine(v, i + 1);
    }
  }

  lemma {:induction false} FieldsOneLine(v: Json, keys: seq<string>, i: nat)
    requires v.Obj? && i <= |keys| && forall k :: k in keys ==> k in v.fields
    ensures OneLine(PrintFields(v, keys, i))
    decreases v, 0, |keys| - i
  {
    hide Print, Escaped;
    if i < |keys| {
      EscapedOneLine(keys[i]);
      PrintOneLine(v.fields[keys[i]]);
      FieldsOneLine(v, keys, i + 1);
    }
  }
}
