/** JSON text as the modules write it (json.dumps) and read it (json.loads).

    A Python string is a sequence of code points and may hold lone surrogates.
    JSON text is a Dafny string: everything the printer writes is ASCII, and a
    file decoded from UTF-8 holds Unicode scalar values only.

    The printer takes the text that follows as an argument, so that a printed
    value is always the front of a longer text, which is how the parser meets it.
  */
module Json {
  import opened Options

  type CodePoint = c: int | 0 <= c < 0x11_0000
  type Str = seq<CodePoint>

  /** A Python str literal. */
  function Lit(s: string): Str {
    seq(|s|, i requires 0 <= i < |s| => s[i] as int)
  }

  /** JSON values as Python holds them. A dict lists its entries in insertion
      order; a number is kept as the token it prints as. */
  datatype Value =
    | Null
    | Bool(b: bool)
    | Num(token: string)
    | Text(s: Str)
    | Arr(items: seq<Value>)
    | Obj(fields: seq<Field>)

  datatype Field = Field(key: Str, value: Value)

  // ---------------------------------------------------------------- numbers

  predicate IsDigit(c: char) { '0' <= c <= '9' }

  predicate IsNumberChar(c: char) { IsDigit(c) || c in "+-.eE" }

  /** Length of the run of digits at the front. */
  function DigitRun(t: string): (n: nat)
    ensures n <= |t|
  {
    if t != "" && IsDigit(t[0]) then 1 + DigitRun(t[1..]) else 0
  }

  predicate IsInteger(t: string) {
    DigitRun(t) == |t| > 0 && (t[0] == '0' ==> |t| == 1)
  }

  predicate IsExponent(t: string) {
    t == "" || (t[0] in "eE" &&
      var u := if |t| > 1 && t[1] in "+-" then t[2..] else t[1..];
      DigitRun(u) == |u| > 0)
  }

  predicate IsFraction(t: string) {
    if t != "" && t[0] == '.' then
      var n := DigitRun(t[1..]);
      n > 0 && IsExponent(t[n + 1..])
    else
      IsExponent(t)
  }

  predicate IsUnsigned(t: string) {
    var n := DigitRun(t);
    IsInteger(t[..n]) && IsFraction(t[n..])
  }

  /** The number tokens of section 6 of RFC 8259. */
  predicate IsNumber(t: string) {
    (forall i :: 0 <= i < |t| ==> IsNumberChar(t[i])) &&
    t != "" &&
    if t[0] == '-' then IsUnsigned(t[1..]) else IsUnsigned(t)
  }

  // ---------------------------------------------------------------- printer

  function HexDigit(n: int): char
    requires 0 <= n < 16
  {
    if n < 10 then ('0' as int + n) as char else ('a' as int + n - 10) as char
  }

  function Unicode(n: int): string
    requires 0 <= n < 0x1_0000
  {
    ['\\', 'u', HexDigit(n / 0x1000), HexDigit(n / 0x100 % 16), HexDigit(n / 0x10 % 16), HexDigit(n % 16)]
  }

  function HighOf(c: CodePoint): int
    requires c >= 0x1_0000
  {
    0xD800 + (c - 0x1_0000) / 0x400
  }

  function LowOf(c: CodePoint): int
    requires c >= 0x1_0000
  {
    0xDC00 + (c - 0x1_0000) % 0x400
  }

  /** Wrapping style: `indented` is json.dumps(indent=2), otherwise the default
      separators; `safe` also escapes `<`, `>` and `&`. */
  datatype Style = Style(indented: bool, safe: bool)

  /** One character inside a string literal: ensure_ascii leaves space..~ alone
      apart from the quote and the backslash. */
  function EscapeChar(c: CodePoint, safe: bool): string {
    if c == 0x22 then "\\\""
    else if c == 0x5C then "\\\\"
    else if c == 0x08 then "\\b"
    else if c == 0x0C then "\\f"
    else if c == 0x0A then "\\n"
    else if c == 0x0D then "\\r"
    else if c == 0x09 then "\\t"
    else if 0x20 <= c <= 0x7E then
      if safe && (c == 0x3C || c == 0x3E || c == 0x26) then Unicode(c) else [c as char]
    else if c < 0x1_0000 then Unicode(c)
    else Unicode(HighOf(c)) + Unicode(LowOf(c))
  }

  function Escape(s: Str, safe: bool, rest: string): string {
    if s == [] then rest else EscapeChar(s[0], safe) + Escape(s[1..], safe, rest)
  }

  function Quote(s: Str, safe: bool, rest: string): string {
    "\"" + Escape(s, safe, "\"" + rest)
  }

  function Spaces(n: nat): (g: string)
    ensures forall i :: 0 <= i < |g| ==> IsSpace(g[i])
  {
    if n == 0 then "" else " " + Spaces(n - 1)
  }

  /** What json.dumps puts after an opening and before a closing bracket. */
  function Gap(st: Style, depth: nat): (g: string)
    ensures forall i :: 0 <= i < |g| ==> IsSpace(g[i])
  {
    if st.indented then "\n" + Spaces(2 * depth) else ""
  }

  /** What json.dumps puts after a comma. */
  function ItemGap(st: Style, depth: nat): (g: string)
    ensures forall i :: 0 <= i < |g| ==> IsSpace(g[i])
  {
    if st.indented then Gap(st, depth) else " "
  }

  function Print(v: Value, st: Style, depth: nat, rest: string): string
    decreases v, 0
  {
    match v
    case Null => "null" + rest
    case Bool(b) => (if b then "true" else "false") + rest
    case Num(token) => token + rest
    case Text(s) => Quote(s, st.safe, rest)
    case Arr(items) =>
      if items == [] then "[]" + rest
      else "[" + (Gap(st, depth + 1) + PrintItems(items, st, depth + 1, Gap(st, depth) + ("]" + rest)))
    case Obj(fields) =>
      if fields == [] then "{}" + rest
      else "{" + (Gap(st, depth + 1) + PrintFields(fields, st, depth + 1, Gap(st, depth) + ("}" + rest)))
  }

  function PrintItems(items: seq<Value>, st: Style, depth: nat, rest: string): string
    decreases items, 0
  {
    if items == [] then rest
    else Print(items[0], st, depth,
      if |items| == 1 then rest
      else "," + (ItemGap(st, depth) + PrintItems(items[1..], st, depth, rest)))
  }

  function PrintFields(fields: seq<Field>, st: Style, depth: nat, rest: string): string
    decreases fields, 0
  {
    if fields == [] then rest
    else PrintField(fields[0], st, depth,
      if |fields| == 1 then rest
      else "," + (ItemGap(st, depth) + PrintFields(fields[1..], st, depth, rest)))
  }

  function PrintField(f: Field, st: Style, depth: nat, rest: string): string
    decreases f, 0
  {
    Quote(f.key, st.safe, ": " + Print(f.value, st, depth, rest))
  }

  // ------------------------------------------------------ sort_keys, replace

  /** Python's order on strings: by code point. */
  predicate StrLessEq(a: Str, b: Str) {
    a == [] || (b != [] && (a[0] < b[0] || (a[0] == b[0] && StrLessEq(a[1..], b[1..]))))
  }

  function InsertField(f: Field, fs: seq<Field>): seq<Field> {
    if fs == [] || StrLessEq(f.key, fs[0].key) then [f] + fs
    else [fs[0]] + InsertField(f, fs[1..])
  }

  function SortFields(fs: seq<Field>): seq<Field> {
    if fs == [] then [] else InsertField(fs[0], SortFields(fs[1..]))
  }

  /** The tree json.dumps walks under sort_keys=True. */
  function SortTree(v: Value): Value
    decreases v, 0
  {
    match v
    case Arr(items) => Arr(SortItems(items))
    case Obj(fields) => Obj(SortFields(SortValues(fields)))
    case _ => v
  }

  function SortItems(items: seq<Value>): seq<Value>
    decreases items, 0
  {
    if items == [] then [] else [SortTree(items[0])] + SortItems(items[1..])
  }

  function SortValues(fields: seq<Field>): seq<Field>
    decreases fields, 0
  {
    if fields == [] then []
    else [Field(fields[0].key, SortTree(fields[0].value))] + SortValues(fields[1..])
  }

  /** json.dumps(v, ensure_ascii=True, sort_keys=True) */
  function DumpsSorted(v: Value): string {
    Print(SortTree(v), Style(false, false), 0, "")
  }

  /** json.dumps(v, indent=2) */
  function DumpsIndented(v: Value): string {
    Print(v, Style(true, false), 0, "")
  }

  /** str.replace with a one-character pattern. */
  function Replace(t: string, c: char, sub: string): string {
    if t == "" then ""
    else (if t[0] == c then sub else [t[0]]) + Replace(t[1..], c, sub)
  }

  /** `_safe_json`: the three replacements one after the other. */
  function SafeJson(v: Value): string {
    Replace(Replace(Replace(DumpsSorted(v), '<', "\\u003c"), '>', "\\u003e"), '&', "\\u0026")
  }

  // ----------------------------------------------------------------- parser

  predicate IsSpace(c: char) { c == ' ' || c == '\t' || c == '\n' || c == '\r' }

  function SkipSpace(t: string): (r: string)
    ensures |r| <= |t|
  {
    if t != "" && IsSpace(t[0]) then SkipSpace(t[1..]) else t
  }

  function HexValue(c: char): int {
    if '0' <= c <= '9' then c as int - '0' as int
    else if 'a' <= c <= 'f' then c as int - 'a' as int + 10
    else if 'A' <= c <= 'F' then c as int - 'A' as int + 10
    else -1
  }

  predicate IsHex(c: char) { HexValue(c) >= 0 }

  predicate IsHigh(c: int) { 0xD800 <= c < 0xDC00 }

  predicate IsLow(c: int) { 0xDC00 <= c < 0xE000 }

  function Combine(high: CodePoint, low: CodePoint): CodePoint
    requires IsHigh(high) && IsLow(low)
  {
    0x1_0000 + (high - 0xD800) * 0x400 + (low - 0xDC00)
  }

  /** The code unit of a \uXXXX escape at the front of the text. */
  function UnitAt(t: string): (r: Option<CodePoint>)
    ensures r.Some? ==> |t| >= 6 && r.value < 0x1_0000
  {
    if |t| >= 6 && t[0] == '\\' && t[1] == 'u' && IsHex(t[2]) && IsHex(t[3]) && IsHex(t[4]) && IsHex(t[5]) then
      Some(HexValue(t[2]) * 0x1000 + HexValue(t[3]) * 0x100 + HexValue(t[4]) * 0x10 + HexValue(t[5]))
    else
      None
  }

  predicate StartsLow(t: string) {
    var u := UnitAt(t);
    u.Some? && IsLow(u.value)
  }

  /** The characters of a string literal (section 7 of RFC 8259): one character
      and what follows it, `None` when the literal is malformed here. */
  function CharAt(t: string): (r: Option<(CodePoint, string)>)
    ensures r.Some? ==> |r.value.1| < |t|
  {
    if t == "" || t[0] == '"' || t[0] < ' ' then None
    else if t[0] != '\\' then Some((t[0] as int, t[1..]))
    else if |t| < 2 then None
    else if t[1] == 'u' then
      var u := UnitAt(t);
      if u.None? then None
      else if IsHigh(u.value) && StartsLow(t[6..]) then
        Some((Combine(u.value, UnitAt(t[6..]).value), t[12..]))
      else
        Some((u.value, t[6..]))
    else if t[1] == '"' || t[1] == '\\' || t[1] == '/' then Some((t[1] as int, t[2..]))
    else if t[1] == 'b' then Some((0x08, t[2..]))
    else if t[1] == 'f' then Some((0x0C, t[2..]))
    else if t[1] == 'n' then Some((0x0A, t[2..]))
    else if t[1] == 'r' then Some((0x0D, t[2..]))
    else if t[1] == 't' then Some((0x09, t[2..]))
    else None
  }

  /** The rest of a string literal whose opening quote has been read. */
  function ParseChars(t: string): (r: Option<(Str, string)>)
    ensures r.Some? ==> |r.value.1| < |t|
    decreases |t|
  {
    if t != "" && t[0] == '"' then Some(([], t[1..]))
    else match CharAt(t)
      case None => None
      case Some((c, u)) =>
        match ParseChars(u)
        case None => None
        case Some((s, rest)) => Some(([c] + s, rest))
  }

  function NumberRun(t: string): (n: nat)
    ensures n <= |t|
  {
    if t != "" && IsNumberChar(t[0]) then 1 + NumberRun(t[1..]) else 0
  }

  predicate HasPrefix(t: string, p: string) { |p| <= |t| && t[..|p|] == p }

  /** One value at the front of the text, with the text after it. */
  function ParseValue(t: string): (r: Option<(Value, string)>)
    ensures r.Some? ==> |r.value.1| < |t|
    decreases |t|, 0
  {
    if t == "" then None
    else if t[0] == '"' then
      match ParseChars(t[1..])
      case None => None
      case Some((s, rest)) => Some((Text(s), rest))
    else if t[0] == '[' then
      var u := SkipSpace(t[1..]);
      if u != "" && u[0] == ']' then Some((Arr([]), u[1..]))
      else (match ParseItems(u)
        case None => None
        case Some((items, rest)) => Some((Arr(items), rest)))
    else if t[0] == '{' then
      var u := SkipSpace(t[1..]);
      if u != "" && u[0] == '}' then Some((Obj([]), u[1..]))
      else (match ParseFields(u)
        case None => None
        case Some((fields, rest)) => Some((Obj(DictOf(fields)), rest)))
    else if HasPrefix(t, "null") then Some((Null, t[4..]))
    else if HasPrefix(t, "true") then Some((Bool(true), t[4..]))
    else if HasPrefix(t, "false") then Some((Bool(false), t[5..]))
    else
      var n := NumberRun(t);
      if IsNumber(t[..n]) then Some((Num(t[..n]), t[n..])) else None
  }

  function ParseItems(t: string): (r: Option<(seq<Value>, string)>)
    ensures r.Some? ==> |r.value.1| < |t|
    decreases |t|, 1
  {
    match ParseValue(t)
    case None => None
    case Some((v, rest)) =>
      var u := SkipSpace(rest);
      if u == "" then None
      else if u[0] == ']' then Some(([v], u[1..]))
      else if u[0] != ',' then None
      else (match ParseItems(SkipSpace(u[1..]))
        case None => None
        case Some((vs, end)) => Some(([v] + vs, end)))
  }

  function ParseField(t: string): (r: Option<(Field, string)>)
    ensures r.Some? ==> |r.value.1| < |t|
    decreases |t|, 1
  {
    if t == "" || t[0] != '"' then None
    else match ParseChars(t[1..])
      case None => None
      case Some((key, afterKey)) =>
        var colon := SkipSpace(afterKey);
        if colon == "" || colon[0] != ':' then None
        else match ParseValue(SkipSpace(colon[1..]))
          case None => None
          case Some((v, rest)) => Some((Field(key, v), rest))
  }

  function ParseFields(t: string): (r: Option<(seq<Field>, string)>)
    ensures r.Some? ==> |r.value.1| < |t|
    decreases |t|, 2
  {
    match ParseField(t)
    case None => None
    case Some((f, rest)) =>
      var u := SkipSpace(rest);
      if u == "" then None
      else if u[0] == '}' then Some(([f], u[1..]))
      else if u[0] != ',' then None
      else (match ParseFields(SkipSpace(u[1..]))
        case None => None
        case Some((fs, end)) => Some(([f] + fs, end)))
  }

  /** json.loads */
  function Parse(t: string): Option<Value> {
    match ParseValue(SkipSpace(t))
    case None => None
    case Some((v, rest)) => if SkipSpace(rest) == "" then Some(v) else None
  }

  // ------------------------------------------------------------------ dicts

  /** Index of the entry with this key, or the length. */
  function KeyIndex(fs: seq<Field>, key: Str): (i: nat)
    ensures i <= |fs|
    ensures forall j :: 0 <= j < i ==> fs[j].key != key
    ensures i < |fs| ==> fs[i].key == key
  {
    FirstIndex(fs, (f: Field) => f.key == key)
  }

  /** d.get(key) */
  function Get(v: Value, key: string): Option<Value> {
    if v.Obj? then
      var i := KeyIndex(v.fields, Lit(key));
      if i < |v.fields| then Some(v.fields[i].value) else None
    else None
  }

  /** d[key] = value: replaces in place or appends. */
  function Put(fs: seq<Field>, f: Field): seq<Field> {
    var i := KeyIndex(fs, f.key);
    if i < |fs| then fs[i := f] else fs + [f]
  }

  /** dict(pairs): a later pair with the same key wins. */
  function DictOf(pairs: seq<Field>): seq<Field> {
    if pairs == [] then [] else Put(DictOf(pairs[..|pairs| - 1]), pairs[|pairs| - 1])
  }

  /** What a Python value means up to ==: a dict is a finite map. */
  datatype Meaning =
    | MNull
    | MBool(b: bool)
    | MNum(token: string)
    | MText(s: Str)
    | MList(items: seq<Meaning>)
    | MDict(entries: map<Str, Meaning>)

  function MeaningOf(v: Value): Meaning
    decreases v, 0
  {
    match v
    case Null => MNull
    case Bool(b) => MBool(b)
    case Num(token) => MNum(token)
    case Text(s) => MText(s)
    case Arr(items) => MList(MeaningOfItems(items))
    case Obj(fields) => MDict(MeaningOfFields(fields))
  }

  function MeaningOfItems(items: seq<Value>): (r: seq<Meaning>)
    ensures |r| == |items|
    decreases items, 0
  {
    if items == [] then [] else [MeaningOf(items[0])] + MeaningOfItems(items[1..])
  }

  function MeaningOfFields(fields: seq<Field>): map<Str, Meaning>
    decreases fields, 0
  {
    if fields == [] then map[]
    else map[fields[0].key := MeaningOf(fields[0].value)] + MeaningOfFields(fields[1..])
  }
}
