/** How the text looks that goes to the session: one line of printable ASCII, with the
    keys of every dict in order. */
module JsonText {
  import opened Json
  import opened JsonRoundTrip
  import opened JsonExact

  // ------------------------------------------------------------------- ASCII

  /** Printable ASCII, and line ends where `lines` allows them. */
  ghost predicate Plain(t: string, lines: bool) {
    forall i :: 0 <= i < |t| ==> ' ' <= t[i] <= '~' || (lines && t[i] == '\n')
  }

  lemma PlainChar(c: CodePoint, safe: bool)
    ensures Plain(EscapeChar(c, safe), false)
  {
  }

  lemma {:induction false} PlainQuote(s: Str, st: Style, rest: string)
    requires Plain(rest, st.indented)
    ensures Plain(Quote(s, st.safe, rest), st.indented)
  {
    PlainEscape(s, st, "\"" + rest);
  }

  lemma {:induction false} PlainEscape(s: Str, st: Style, rest: string)
    requires Plain(rest, st.indented)
    ensures Plain(Escape(s, st.safe, rest), st.indented)
    decreases |s|
  {
    if s != [] {
      PlainChar(s[0], st.safe);
      PlainEscape(s[1..], st, rest);
    }
  }

  lemma {:induction false} PlainSpaces(n: nat)
    ensures Plain(Spaces(n), false)
    decreases n
  {
    if n > 0 {
      PlainSpaces(n - 1);
    }
  }

  lemma PlainGap(st: Style, depth: nat)
    ensures Plain(Gap(st, depth), st.indented) && Plain(ItemGap(st, depth), st.indented)
  {
    PlainSpaces(2 * depth);
  }

  lemma PlainBrackets(opening: string, st: Style, depth: nat, inner: string, closing: string, rest: string)
    requires Plain(opening, false) && Plain(closing, false) && Plain(rest, st.indented)
    ensures Plain(Gap(st, depth) + (closing + rest), st.indented)
    ensures Plain(inner, st.indented) ==> Plain(opening + (Gap(st, depth + 1) + inner), st.indented)
  {
    PlainGap(st, depth);
    PlainGap(st, depth + 1);
  }

  lemma {:induction false} PlainPrint(v: Value, st: Style, depth: nat, rest: string)
    requires NumbersOk(v) && Plain(rest, st.indented)
    ensures Plain(Print(v, st, depth, rest), st.indented)
    decreases v, 0
  {
    match v
    case Text(s) => PlainQuote(s, st, rest);
    case Arr(items) =>
      if items != [] {
        var close := Gap(st, depth) + ("]" + rest);
        PlainBrackets("[", st, depth, PrintItems(items, st, depth + 1, close), "]", rest);
        PlainItems(items, st, depth + 1, close);
      }
    case Obj(fields) =>
      if fields != [] {
        var close := Gap(st, depth) + ("}" + rest);
        PlainBrackets("{", st, depth, PrintFields(fields, st, depth + 1, close), "}", rest);
        PlainFields(fields, st, depth + 1, close);
      }
    case _ =>
  }

  lemma {:induction false} PlainItems(items: seq<Value>, st: Style, depth: nat, rest: string)
    requires NumbersOkItems(items) && Plain(rest, st.indented)
    ensures Plain(PrintItems(items, st, depth, rest), st.indented)
    decreases items, 0
  {
    if items != [] {
      PlainGap(st, depth);
      PlainItems(items[1..], st, depth, rest);
      PlainPrint(items[0], st, depth,
        if |items| == 1 then rest else "," + (ItemGap(st, depth) + PrintItems(items[1..], st, depth, rest)));
    }
  }

  lemma {:induction false} PlainFields(fields: seq<Field>, st: Style, depth: nat, rest: string)
    requires NumbersOkFields(fields) && Plain(rest, st.indented)
    ensures Plain(PrintFields(fields, st, depth, rest), st.indented)
    decreases fields, 0
  {
    if fields != [] {
      PlainGap(st, depth);
      PlainFields(fields[1..], st, depth, rest);
      var tail := if |fields| == 1 then rest
        else "," + (ItemGap(st, depth) + PrintFields(fields[1..], st, depth, rest));
      PlainPrint(fields[0].value, st, depth, tail);
      PlainQuote(fields[0].key, st, ": " + Print(fields[0].value, st, depth, tail));
    }
  }

  // -------------------------------------------------------------------- keys

  /** `a` is a prefix of `b`, or has the smaller code point where they first differ. */
  ghost predicate NotAfter(a: Str, b: Str) {
    a <= b || exists i :: 0 <= i < |a| && i < |b| && a[..i] == b[..i] && a[i] < b[i]
  }

  lemma {:induction false} LessEqMeans(a: Str, b: Str)
    ensures StrLessEq(a, b) <==> NotAfter(a, b)
    decreases |a|
  {
    if a != [] && b != [] {
      LessEqMeans(a[1..], b[1..]);
      if a[0] == b[0] {
        assert a <= b <==> a[1..] <= b[1..];
        forall i | 0 <= i < |a| && i < |b| && a[..i] == b[..i] && a[i] < b[i] ensures NotAfter(a[1..], b[1..]) {
          assert a[1..][..i - 1] == a[..i][1..] && b[1..][..i - 1] == b[..i][1..];
        }
        forall i | 0 <= i < |a[1..]| && i < |b[1..]| && a[1..][..i] == b[1..][..i] && a[1..][i] < b[1..][i]
          ensures NotAfter(a, b)
        {
          assert a[..i + 1] == [a[0]] + a[1..][..i] && b[..i + 1] == [b[0]] + b[1..][..i];
        }
      } else if a[0] < b[0] {
        assert a[..0] == b[..0];
      } else {
        forall i | 0 < i < |a| && i < |b| ensures a[..i] != b[..i] {
          assert a[..i][0] == a[0] && b[..i][0] == b[0];
        }
      }
    }
  }

  lemma {:induction false} LessEqOrder(a: Str, b: Str, c: Str)
    ensures StrLessEq(a, b) || StrLessEq(b, a)
    ensures StrLessEq(a, b) && StrLessEq(b, c) ==> StrLessEq(a, c)
    decreases |a|
  {
    if a != [] {
      LessEqOrder(a[1..], if b == [] then [] else b[1..], if c == [] then [] else c[1..]);
    }
  }

  ghost predicate InOrder(fs: seq<Field>) {
    forall i, j :: 0 <= i < j < |fs| ==> StrLessEq(fs[i].key, fs[j].key)
  }

  lemma {:induction false} InsertInOrder(f: Field, fs: seq<Field>)
    requires InOrder(fs)
    ensures InOrder(InsertField(f, fs)) && forall g :: g in InsertField(f, fs) ==> g == f || g in fs
    decreases |fs|
  {
    if fs != [] {
      LessEqOrder(f.key, fs[0].key, f.key);
      if StrLessEq(f.key, fs[0].key) {
        forall j | 0 <= j < |fs| ensures StrLessEq(f.key, fs[j].key) {
          LessEqOrder(f.key, fs[0].key, fs[j].key);
        }
      } else {
        InsertInOrder(f, fs[1..]);
        var more := InsertField(f, fs[1..]);
        forall j | 0 <= j < |more| ensures StrLessEq(fs[0].key, more[j].key) {
          assert more[j] in more;
        }
      }
    }
  }

  lemma {:induction false} SortInOrder(fs: seq<Field>)
    ensures InOrder(SortFields(fs))
    decreases |fs|
  {
    if fs != [] {
      SortInOrder(fs[1..]);
      InsertInOrder(fs[0], SortFields(fs[1..]));
    }
  }

  /** In every dict of the tree the keys come in order. */
  ghost predicate KeysInOrder(v: Value)
    decreases v
  {
    match v
    case Arr(items) => forall i :: 0 <= i < |items| ==> KeysInOrder(items[i])
    case Obj(fields) =>
      && (forall i :: 0 <= i < |fields| ==> KeysInOrder(fields[i].value))
      && (forall i, j :: 0 <= i < j < |fields| ==> NotAfter(fields[i].key, fields[j].key))
    case _ => true
  }

  lemma {:induction false} SortedItems(items: seq<Value>)
    ensures forall i :: 0 <= i < |SortItems(items)| ==> KeysInOrder(SortItems(items)[i])
    decreases items, 0
  {
    if items != [] {
      SortedTree(items[0]);
      SortedItems(items[1..]);
    }
  }

  lemma {:induction false} SortedValues(fields: seq<Field>)
    ensures forall i :: 0 <= i < |SortValues(fields)| ==> KeysInOrder(SortValues(fields)[i].value)
    decreases fields, 0
  {
    if fields != [] {
      SortedTree(fields[0].value);
      SortedValues(fields[1..]);
    }
  }

  lemma {:induction false} SortedTree(v: Value)
    ensures KeysInOrder(SortTree(v))
    decreases v, 0
  {
    match v
    case Arr(items) => SortedItems(items);
    case Obj(fields) =>
      SortedValues(fields);
      SortedDict(SortValues(fields));
    case _ =>
  }

  lemma SortedDict(fs: seq<Field>)
    requires forall i :: 0 <= i < |fs| ==> KeysInOrder(fs[i].value)
    ensures KeysInOrder(Obj(SortFields(fs)))
  {
    var gs := SortFields(fs);
    SortInOrder(fs);
    SortPermutes(fs);
    forall i | 0 <= i < |gs| ensures KeysInOrder(gs[i].value) {
      assert gs[i] in multiset(fs);
    }
    forall i, j | 0 <= i < j < |gs| ensures NotAfter(gs[i].key, gs[j].key) {
      LessEqMeans(gs[i].key, gs[j].key);
    }
  }

  // ------------------------------------------------------------- main result

  /** `_safe_json` on every payload: one line of printable ASCII, and it is the text of
      a tree whose dicts have their keys in order of code points. */
  lemma SafeJsonText(v: Value)
    requires Printable(v)
    ensures Plain(SafeJson(v), false)
    ensures SafeJson(v) == Print(SortTree(v), Style(false, true), 0, "") && KeysInOrder(SortTree(v))
  {
    SortTreeMeaning(v);
    SequentialIsSimultaneous(DumpsSorted(v));
    EscapeMarksPrint(SortTree(v), false, 0, "");
    PlainPrint(SortTree(v), Style(false, true), 0, "");
    SortedTree(v);
  }
}
