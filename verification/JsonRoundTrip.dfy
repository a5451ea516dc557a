/** Reading back what was printed: the parser undoes the printer, up to the
    joining of surrogate pairs, and exactly when there is no pair to join. */
module JsonRoundTrip {
  import opened Options
  import opened Json

  // ---------------------------------------------------------------- strings

  /** A high surrogate directly followed by a low one becomes one code point. */
  function Join(s: Str): Str {
    if s == [] then []
    else if |s| >= 2 && IsHigh(s[0]) && IsLow(s[1]) then [Combine(s[0], s[1])] + Join(s[2..])
    else [s[0]] + Join(s[1..])
  }

  ghost predicate PairFree(s: Str) {
    forall i :: 0 <= i < |s| - 1 ==> !(IsHigh(s[i]) && IsLow(s[i + 1]))
  }

  lemma UnitOfUnicode(n: int, u: string)
    requires 0 <= n < 0x1_0000
    ensures UnitAt(Unicode(n) + u) == Some(n as CodePoint)
    ensures (Unicode(n) + u)[6..] == u
  {
    UnitOfDigits(n / 0x1000, n / 0x100 % 16, n / 0x10 % 16, n % 16, u);
    HexDigits(n);
  }

  lemma HexDigits(n: int)
    requires 0 <= n < 0x1_0000
    ensures n / 0x1000 * 0x1000 + n / 0x100 % 16 * 0x100 + n / 0x10 % 16 * 0x10 + n % 16 == n
  {
    assert n / 0x100 == n / 0x1000 * 16 + n / 0x100 % 16;
    assert n / 0x10 == n / 0x100 * 16 + n / 0x10 % 16;
  }

  lemma UnitOfDigits(a: int, b: int, c: int, d: int, u: string)
    requires 0 <= a < 16 && 0 <= b < 16 && 0 <= c < 16 && 0 <= d < 16
    ensures UnitAt(['\\', 'u', HexDigit(a), HexDigit(b), HexDigit(c), HexDigit(d)] + u) ==
            Some((a * 0x1000 + b * 0x100 + c * 0x10 + d) as CodePoint)
  {
    HexValueOfDigit(a);
    HexValueOfDigit(b);
    HexValueOfDigit(c);
    HexValueOfDigit(d);
  }

  lemma HexValueOfDigit(n: int)
    requires 0 <= n < 16
    ensures HexValue(HexDigit(n)) == n
  {
  }

  lemma CombineOfHalves(c: CodePoint)
    requires c >= 0x1_0000
    ensures IsHigh(HighOf(c)) && IsLow(LowOf(c)) && Combine(HighOf(c), LowOf(c)) == c
  {
  }

  /** Characters that print as themselves or as a two-character escape. */
  predicate PrintsShort(c: CodePoint, safe: bool) {
    c == 0x08 || c == 0x09 || c == 0x0A || c == 0x0C || c == 0x0D
    || (0x20 <= c <= 0x7E && !(safe && (c == 0x3C || c == 0x3E || c == 0x26)))
  }

  lemma CharAtShort(c: CodePoint, safe: bool, u: string)
    requires PrintsShort(c, safe)
    ensures CharAt(EscapeChar(c, safe) + u) == Some((c, u))
    ensures EscapeChar(c, safe) != "" && EscapeChar(c, safe)[0] != '"'
  {
    var e := EscapeChar(c, safe);
    assert (e + u)[|e|..] == u;
    assert (e + u)[0] == e[0];
    assert |e| == 2 ==> (e + u)[1] == e[1];
  }

  /** Reading one escaped character: it only merges with what follows when it
      is a high surrogate and a low one follows. */
  lemma CharAtEscape(c: CodePoint, safe: bool, u: string)
    ensures CharAt(EscapeChar(c, safe) + u) ==
            if IsHigh(c) && StartsLow(u) then Some((Combine(c, UnitAt(u).value), u[6..])) else Some((c, u))
    ensures EscapeChar(c, safe) != "" && EscapeChar(c, safe)[0] != '"'
  {
    var t := EscapeChar(c, safe) + u;
    if PrintsShort(c, safe) {
      CharAtShort(c, safe, u);
    } else if c >= 0x1_0000 {
      CombineOfHalves(c);
      var low := Unicode(LowOf(c)) + u;
      assert t == Unicode(HighOf(c)) + low;
      UnitOfUnicode(HighOf(c), low);
      UnitOfUnicode(LowOf(c), u);
      assert t[12..] == t[6..][6..];
    } else {
      UnitOfUnicode(c, u);
      if IsHigh(c) && StartsLow(u) {
        assert t[12..] == u[6..];
      }
    }
  }

  lemma ShortIsNoUnit(c: CodePoint, safe: bool, u: string)
    requires PrintsShort(c, safe)
    ensures UnitAt(EscapeChar(c, safe) + u) == None
  {
    var e := EscapeChar(c, safe);
    if |e| == 2 {
      assert (e + u)[1] == e[1] != 'u';
    } else {
      assert (e + u)[0] == e[0] != '\\';
    }
  }

  lemma StartsLowChar(c: CodePoint, safe: bool, u: string)
    ensures StartsLow(EscapeChar(c, safe) + u) <==> IsLow(c)
    ensures IsLow(c) ==> UnitAt(EscapeChar(c, safe) + u) == Some(c) && (EscapeChar(c, safe) + u)[6..] == u
  {
    if PrintsShort(c, safe) {
      ShortIsNoUnit(c, safe, u);
    } else if c >= 0x1_0000 {
      CombineOfHalves(c);
      var high, low := Unicode(HighOf(c)), Unicode(LowOf(c));
      assert high + low + u == high + (low + u);
      UnitOfUnicode(HighOf(c), low + u);
    } else {
      UnitOfUnicode(c, u);
    }
  }

  /** The text of a string starts with an escaped low surrogate exactly when the
      string starts with one. */
  lemma StartsLowEscape(s: Str, safe: bool, rest: string)
    ensures var t := Escape(s, safe, "\"" + rest);
            StartsLow(t) <==> s != [] && IsLow(s[0])
    ensures var t := Escape(s, safe, "\"" + rest);
            s != [] && IsLow(s[0]) ==> UnitAt(t) == Some(s[0]) && t[6..] == Escape(s[1..], safe, "\"" + rest)
  {
    if s != [] {
      StartsLowChar(s[0], safe, Escape(s[1..], safe, "\"" + rest));
    }
  }

  /** Section 7 of RFC 8259: the literal of `s` reads back as `Join(s)`. */
  lemma {:induction false} CharsRoundTrip(s: Str, safe: bool, rest: string)
    ensures ParseChars(Escape(s, safe, "\"" + rest)) == Some((Join(s), rest))
    decreases |s|
  {
    var t := Escape(s, safe, "\"" + rest);
    if s == [] {
      assert t[1..] == rest;
    } else {
      var u := Escape(s[1..], safe, "\"" + rest);
      CharAtEscape(s[0], safe, u);
      StartsLowEscape(s[1..], safe, rest);
      if |s| >= 2 && IsHigh(s[0]) && IsLow(s[1]) {
        assert s[1..][1..] == s[2..];
        CharsRoundTrip(s[2..], safe, rest);
      } else {
        CharsRoundTrip(s[1..], safe, rest);
      }
    }
  }

  lemma PairFreeTail(s: Str)
    requires s != []
    ensures PairFree(s) <==> PairFree(s[1..]) && !(|s| >= 2 && IsHigh(s[0]) && IsLow(s[1]))
  {
    var u := s[1..];
    assert forall i :: 0 <= i < |u| ==> u[i] == s[i + 1];
    if PairFree(u) {
      forall i | 1 <= i < |s| - 1 ensures !(IsHigh(s[i]) && IsLow(s[i + 1])) {
        assert s[i] == u[i - 1];
      }
    }
  }

  lemma {:induction false} JoinIdentity(s: Str)
    ensures Join(s) == s <==> PairFree(s)
    ensures |Join(s)| <= |s|
    decreases |s|
  {
    if |s| >= 2 && IsHigh(s[0]) && IsLow(s[1]) {
      JoinIdentity(s[2..]);
    } else if s != [] {
      JoinIdentity(s[1..]);
      assert s == [s[0]] + s[1..];
      PairFreeTail(s);
    }
  }

  /** Joining leaves no pair behind. */
  lemma {:induction false} JoinPairFree(s: Str)
    ensures PairFree(Join(s))
    ensures s != [] ==> Join(s) != [] && (IsLow(Join(s)[0]) ==> IsLow(s[0]))
    decreases |s|
  {
    if |s| >= 2 && IsHigh(s[0]) && IsLow(s[1]) {
      JoinPairFree(s[2..]);
    } else if s != [] {
      JoinPairFree(s[1..]);
      var j := Join(s[1..]);
      assert Join(s) == [s[0]] + j;
      if |s| >= 2 { assert s[1..][0] == s[1]; }
    }
  }

  // ----------------------------------------------------------------- values

  function JoinTree(v: Value): Value
    decreases v, 0
  {
    match v
    case Text(s) => Text(Join(s))
    case Arr(items) => Arr(JoinItems(items))
    case Obj(fields) => Obj(DictOf(JoinFields(fields)))
    case _ => v
  }

  function JoinItems(items: seq<Value>): seq<Value>
    decreases items, 0
  {
    if items == [] then [] else [JoinTree(items[0])] + JoinItems(items[1..])
  }

  function JoinFields(fields: seq<Field>): seq<Field>
    decreases fields, 0
  {
    if fields == [] then []
    else [Field(Join(fields[0].key), JoinTree(fields[0].value))] + JoinFields(fields[1..])
  }

  /** Every number token in the tree is one that JSON allows. */
  predicate NumbersOk(v: Value)
    decreases v, 0
  {
    match v
    case Num(token) => IsNumber(token)
    case Arr(items) => NumbersOkItems(items)
    case Obj(fields) => NumbersOkFields(fields)
    case _ => true
  }

  predicate NumbersOkItems(items: seq<Value>)
    decreases items, 0
  {
    items == [] || (NumbersOk(items[0]) && NumbersOkItems(items[1..]))
  }

  predicate NumbersOkFields(fields: seq<Field>)
    decreases fields, 0
  {
    fields == [] || (NumbersOk(fields[0].value) && NumbersOkFields(fields[1..]))
  }

  /** What may follow a printed value: nothing that would extend a number. */
  predicate Stops(rest: string) { rest == "" || !IsNumberChar(rest[0]) }

  lemma {:induction false} SkipGap(g: string, t: string)
    requires forall i :: 0 <= i < |g| ==> IsSpace(g[i])
    requires t == "" || !IsSpace(t[0])
    ensures SkipSpace(g + t) == t
    decreases |g|
  {
    if g == "" {
      assert g + t == t;
    } else {
      assert (g + t)[1..] == g[1..] + t;
      SkipGap(g[1..], t);
    }
  }

  lemma SkipSeparator(c: char, g: string, u: string)
    requires !IsSpace(c)
    requires forall i :: 0 <= i < |g| ==> IsSpace(g[i])
    requires u != "" && !IsSpace(u[0])
    ensures var w := [c] + (g + u);
            SkipSpace(w) == w && w[0] == c && SkipSpace(w[1..]) == u
  {
    assert ([c] + (g + u))[1..] == g + u;
    SkipGap(g, u);
  }

  lemma {:induction false} NumberRunOf(token: string, rest: string)
    requires forall i :: 0 <= i < |token| ==> IsNumberChar(token[i])
    requires Stops(rest)
    ensures NumberRun(token + rest) == |token|
    decreases |token|
  {
    if token == "" {
      assert token + rest == rest;
    } else {
      assert (token + rest)[1..] == token[1..] + rest;
      NumberRunOf(token[1..], rest);
    }
  }

  lemma PrefixHead(t: string, p: string)
    requires t != "" && p != ""
    ensures HasPrefix(t, p) ==> t[0] == p[0]
  {
    if HasPrefix(t, p) {
      assert t[0] == t[..|p|][0];
    }
  }

  lemma NumberRoundTrip(token: string, rest: string)
    requires IsNumber(token) && Stops(rest)
    ensures ParseValue(token + rest) == Some((Num(token), rest))
  {
    var t := token + rest;
    NumberRunOf(token, rest);
    assert t[0] == token[0] && IsNumberChar(t[0]);
    assert t[..|token|] == token && t[|token|..] == rest;
    assert !HasPrefix(t, "null") by { assert "null"[0] == 'n'; PrefixHead(t, "null"); }
    assert !HasPrefix(t, "true") by { assert "true"[0] == 't'; PrefixHead(t, "true"); }
    assert !HasPrefix(t, "false") by { assert "false"[0] == 'f'; PrefixHead(t, "false"); }
  }

  /** A printed value starts with a character that no separator starts with. */
  lemma PrintHead(v: Value, st: Style, depth: nat, rest: string)
    requires NumbersOk(v)
    ensures var t := Print(v, st, depth, rest); t != "" && !IsSpace(t[0]) && t[0] != ']'
  {
    if v.Num? {
      assert Print(v, st, depth, rest)[0] == v.token[0];
    }
  }

  lemma ItemsHead(items: seq<Value>, st: Style, depth: nat, rest: string)
    requires items != [] && NumbersOkItems(items)
    ensures var t := PrintItems(items, st, depth, rest); t != "" && !IsSpace(t[0]) && t[0] != ']'
  {
    PrintHead(items[0], st, depth,
      if |items| == 1 then rest
      else "," + (ItemGap(st, depth) + PrintItems(items[1..], st, depth, rest)));
  }

  lemma GapStops(st: Style, depth: nat, close: char, rest: string)
    requires close == ']' || close == '}'
    ensures Stops(Gap(st, depth) + ([close] + rest))
    ensures SkipSpace(Gap(st, depth) + ([close] + rest)) == [close] + rest
  {
    SkipGap(Gap(st, depth), [close] + rest);
  }

  // One step of the parser, on a text whose front is known.

  lemma ParseArray(g: string, u: string, items: seq<Value>, rest: string)
    requires forall i :: 0 <= i < |g| ==> IsSpace(g[i])
    requires u != "" && !IsSpace(u[0]) && u[0] != ']'
    requires ParseItems(u) == Some((items, rest))
    ensures ParseValue("[" + (g + u)) == Some((Arr(items), rest))
  {
    assert ("[" + (g + u))[1..] == g + u;
    SkipGap(g, u);
  }

  lemma ParseObject(g: string, u: string, fields: seq<Field>, rest: string)
    requires forall i :: 0 <= i < |g| ==> IsSpace(g[i])
    requires u != "" && u[0] == '"'
    requires ParseFields(u) == Some((fields, rest))
    ensures ParseValue("{" + (g + u)) == Some((Obj(DictOf(fields)), rest))
  {
    assert ("{" + (g + u))[1..] == g + u;
    SkipGap(g, u);
  }

  lemma ParseLastItem(t: string, v: Value, u: string, rest: string)
    requires ParseValue(t) == Some((v, u)) && SkipSpace(u) == "]" + rest
    ensures ParseItems(t) == Some(([v], rest))
  {
    assert ("]" + rest)[1..] == rest;
  }

  lemma ParseNextItem(t: string, v: Value, g: string, u: string, vs: seq<Value>, rest: string)
    requires ParseValue(t) == Some((v, "," + (g + u)))
    requires forall i :: 0 <= i < |g| ==> IsSpace(g[i])
    requires u != "" && !IsSpace(u[0])
    requires ParseItems(u) == Some((vs, rest))
    ensures ParseItems(t) == Some(([v] + vs, rest))
  {
    SkipSeparator(',', g, u);
  }

  lemma ColonSkipped(w: string)
    requires w != "" && !IsSpace(w[0])
    ensures var c := ": " + w;
            SkipSpace(c) == c && c[0] == ':' && SkipSpace(c[1..]) == w
  {
    assert ": " + w == [':'] + (" " + w);
    SkipSeparator(':', " ", w);
  }

  lemma ParseOneField(t: string, key: Str, w: string, v: Value, u: string)
    requires t != "" && t[0] == '"' && ParseChars(t[1..]) == Some((key, ": " + w))
    requires w != "" && !IsSpace(w[0])
    requires ParseValue(w) == Some((v, u))
    ensures ParseField(t) == Some((Field(key, v), u))
  {
    ColonSkipped(w);
  }

  lemma ParseLastField(t: string, f: Field, u: string, rest: string)
    requires ParseField(t) == Some((f, u)) && SkipSpace(u) == "}" + rest
    ensures ParseFields(t) == Some(([f], rest))
  {
    assert ("}" + rest)[1..] == rest;
  }

  lemma ParseNextField(t: string, f: Field, g: string, u: string, fs: seq<Field>, rest: string)
    requires ParseField(t) == Some((f, "," + (g + u)))
    requires forall i :: 0 <= i < |g| ==> IsSpace(g[i])
    requires u != "" && !IsSpace(u[0])
    requires ParseFields(u) == Some((fs, rest))
    ensures ParseFields(t) == Some(([f] + fs, rest))
  {
    SkipSeparator(',', g, u);
  }

  lemma LeafRoundTrip(v: Value, st: Style, depth: nat, rest: string)
    requires NumbersOk(v) && Stops(rest)
    requires (v.Arr? ==> v.items == []) && (v.Obj? ==> v.fields == [])
    ensures ParseValue(Print(v, st, depth, rest)) == Some((JoinTree(v), rest))
  {
    var t := Print(v, st, depth, rest);
    match v
    case Null => assert t[..4] == "null" && t[4..] == rest;
    case Bool(b) =>
      if b {
        assert t[..4] == "true" && t[4..] == rest;
      } else {
        assert t[..5] == "false" && t[5..] == rest;
      }
    case Num(token) => NumberRoundTrip(token, rest);
    case Text(s) =>
      assert t[1..] == Escape(s, st.safe, "\"" + rest);
      CharsRoundTrip(s, st.safe, rest);
    case Arr(items) => assert t[1..] == "]" + rest && ("]" + rest)[1..] == rest;
    case Obj(fields) => assert t[1..] == "}" + rest && ("}" + rest)[1..] == rest;
  }

  /** json.loads after json.dumps, for every style, nesting depth and following
      text: the value comes back with its surrogate pairs joined. */
  lemma {:induction false} ValueRoundTrip(v: Value, st: Style, depth: nat, rest: string)
    requires NumbersOk(v) && Stops(rest)
    ensures ParseValue(Print(v, st, depth, rest)) == Some((JoinTree(v), rest))
    decreases v, 0
  {
    if v.Arr? && v.items != [] {
      var close := Gap(st, depth) + ("]" + rest);
      ItemsHead(v.items, st, depth + 1, close);
      ItemsRoundTrip(v.items, st, depth, rest);
      ParseArray(Gap(st, depth + 1), PrintItems(v.items, st, depth + 1, close), JoinItems(v.items), rest);
    } else if v.Obj? && v.fields != [] {
      var close := Gap(st, depth) + ("}" + rest);
      FieldsRoundTrip(v.fields, st, depth, rest);
      ParseObject(Gap(st, depth + 1), PrintFields(v.fields, st, depth + 1, close), JoinFields(v.fields), rest);
    } else {
      LeafRoundTrip(v, st, depth, rest);
    }
  }

  /** What follows the first of several items. */
  function TailAfter(items: seq<Value>, st: Style, depth: nat, close: string): string
    requires items != []
  {
    if |items| == 1 then close else "," + (ItemGap(st, depth) + PrintItems(items[1..], st, depth, close))
  }

  lemma ItemsParts(items: seq<Value>, st: Style, depth: nat, close: string)
    requires items != [] && Stops(close)
    ensures PrintItems(items, st, depth, close) == Print(items[0], st, depth, TailAfter(items, st, depth, close))
    ensures JoinItems(items) == [JoinTree(items[0])] + JoinItems(items[1..])
    ensures |items| == 1 ==> JoinItems(items) == [JoinTree(items[0])]
    ensures Stops(TailAfter(items, st, depth, close))
  {
  }

  lemma {:induction false} ItemsRoundTrip(items: seq<Value>, st: Style, depth: nat, rest: string)
    requires items != [] && NumbersOkItems(items)
    ensures ParseItems(PrintItems(items, st, depth + 1, Gap(st, depth) + ("]" + rest))) ==
            Some((JoinItems(items), rest))
    decreases items, 0
  {
    var close := Gap(st, depth) + ("]" + rest);
    var t := PrintItems(items, st, depth + 1, close);
    GapStops(st, depth, ']', rest);
    ItemsParts(items, st, depth + 1, close);
    ValueRoundTrip(items[0], st, depth + 1, TailAfter(items, st, depth + 1, close));
    if |items| == 1 {
      ParseLastItem(t, JoinTree(items[0]), close, rest);
    } else {
      var more := PrintItems(items[1..], st, depth + 1, close);
      ItemsHead(items[1..], st, depth + 1, close);
      ItemsRoundTrip(items[1..], st, depth, rest);
      ParseNextItem(t, JoinTree(items[0]), ItemGap(st, depth + 1), more, JoinItems(items[1..]), rest);
    }
  }

  lemma FieldRoundTrip(f: Field, st: Style, depth: nat, tail: string)
    requires NumbersOk(f.value) && Stops(tail)
    requires ParseValue(Print(f.value, st, depth, tail)) == Some((JoinTree(f.value), tail))
    ensures ParseField(PrintField(f, st, depth, tail)) == Some((Field(Join(f.key), JoinTree(f.value)), tail))
  {
    var value := Print(f.value, st, depth, tail);
    var t := PrintField(f, st, depth, tail);
    assert t[1..] == Escape(f.key, st.safe, "\"" + (": " + value));
    CharsRoundTrip(f.key, st.safe, ": " + value);
    PrintHead(f.value, st, depth, tail);
    ParseOneField(t, Join(f.key), value, JoinTree(f.value), tail);
  }

  /** What follows the first of several fields. */
  function TailAfterField(fields: seq<Field>, st: Style, depth: nat, close: string): string
    requires fields != []
  {
    if |fields| == 1 then close else "," + (ItemGap(st, depth) + PrintFields(fields[1..], st, depth, close))
  }

  lemma FieldsParts(fields: seq<Field>, st: Style, depth: nat, close: string)
    requires fields != [] && Stops(close)
    ensures PrintFields(fields, st, depth, close) ==
            PrintField(fields[0], st, depth, TailAfterField(fields, st, depth, close))
    ensures Stops(TailAfterField(fields, st, depth, close))
    ensures JoinFields(fields) == [Field(Join(fields[0].key), JoinTree(fields[0].value))] + JoinFields(fields[1..])
    ensures |fields| == 1 ==> JoinFields(fields) == [Field(Join(fields[0].key), JoinTree(fields[0].value))]
  {
  }

  lemma {:induction false} FieldsRoundTrip(fields: seq<Field>, st: Style, depth: nat, rest: string)
    requires fields != [] && NumbersOkFields(fields)
    ensures ParseFields(PrintFields(fields, st, depth + 1, Gap(st, depth) + ("}" + rest))) ==
            Some((JoinFields(fields), rest))
    decreases fields, 0
  {
    var close := Gap(st, depth) + ("}" + rest);
    var t := PrintFields(fields, st, depth + 1, close);
    var tail := TailAfterField(fields, st, depth + 1, close);
    var f := Field(Join(fields[0].key), JoinTree(fields[0].value));
    GapStops(st, depth, '}', rest);
    FieldsParts(fields, st, depth + 1, close);
    ValueRoundTrip(fields[0].value, st, depth + 1, tail);
    FieldRoundTrip(fields[0], st, depth + 1, tail);
    if |fields| == 1 {
      ParseLastField(t, f, close, rest);
    } else {
      var more := PrintFields(fields[1..], st, depth + 1, close);
      FieldsRoundTrip(fields[1..], st, depth, rest);
      ParseNextField(t, f, ItemGap(st, depth + 1), more, JoinFields(fields[1..]), rest);
    }
  }
}
