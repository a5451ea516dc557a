/** When reading back gives the same value, and why the escaped text cannot
    close the tag it is wrapped in. */
module JsonExact {
  import opened Options
  import opened Json
  import opened JsonRoundTrip

  // ----------------------------------------------------- Python's own values

  ghost predicate DistinctKeys(fs: seq<Field>) {
    forall i, j :: 0 <= i < j < |fs| ==> fs[i].key != fs[j].key
  }

  /** Every dict in the tree has distinct keys, as a Python dict does. */
  ghost predicate DictsOk(v: Value)
    decreases v, 0
  {
    match v
    case Arr(items) => DictsOkItems(items)
    case Obj(fields) => DistinctKeys(fields) && DictsOkFields(fields)
    case _ => true
  }

  ghost predicate DictsOkItems(items: seq<Value>)
    decreases items, 0
  {
    items == [] || (DictsOk(items[0]) && DictsOkItems(items[1..]))
  }

  ghost predicate DictsOkFields(fields: seq<Field>)
    decreases fields, 0
  {
    fields == [] || (DictsOk(fields[0].value) && DictsOkFields(fields[1..]))
  }

  /** A value that Python's json module can hold and print. */
  ghost predicate Printable(v: Value) { NumbersOk(v) && DictsOk(v) }

  /** No string or key in the tree has a high surrogate directly followed by a
      low one. */
  ghost predicate PairFreeTree(v: Value)
    decreases v, 0
  {
    match v
    case Text(s) => PairFree(s)
    case Arr(items) => PairFreeItems(items)
    case Obj(fields) => PairFreeFields(fields)
    case _ => true
  }

  ghost predicate PairFreeItems(items: seq<Value>)
    decreases items, 0
  {
    items == [] || (PairFreeTree(items[0]) && PairFreeItems(items[1..]))
  }

  ghost predicate PairFreeFields(fields: seq<Field>)
    decreases fields, 0
  {
    fields == [] || (PairFree(fields[0].key) && PairFreeTree(fields[0].value) && PairFreeFields(fields[1..]))
  }

  /** The same condition on what a value means. */
  ghost predicate PairFreeMeaning(m: Meaning) {
    match m
    case MText(s) => PairFree(s)
    case MList(items) => forall i :: 0 <= i < |items| ==> PairFreeMeaning(items[i])
    case MDict(entries) => forall k :: k in entries ==> PairFree(k) && PairFreeMeaning(entries[k])
    case _ => true
  }

  // ------------------------------------------- joining, when nothing to join

  lemma {:induction false} DictOfDistinct(fs: seq<Field>)
    requires DistinctKeys(fs)
    ensures DictOf(fs) == fs
    decreases |fs|
  {
    if fs != [] {
      var init, last := fs[..|fs| - 1], fs[|fs| - 1];
      DictOfDistinct(init);
      assert fs == init + [last];
    }
  }

  lemma {:induction false} JoinTreeIdentity(v: Value)
    requires DictsOk(v) && PairFreeTree(v)
    ensures JoinTree(v) == v
    decreases v, 0
  {
    match v
    case Text(s) => JoinIdentity(s);
    case Arr(items) => JoinItemsIdentity(items);
    case Obj(fields) =>
      JoinFieldsIdentity(fields);
      DictOfDistinct(fields);
    case _ =>
  }

  lemma {:induction false} JoinItemsIdentity(items: seq<Value>)
    requires DictsOkItems(items) && PairFreeItems(items)
    ensures JoinItems(items) == items
    decreases items, 0
  {
    if items != [] {
      JoinTreeIdentity(items[0]);
      JoinItemsIdentity(items[1..]);
    }
  }

  lemma {:induction false} JoinFieldsIdentity(fields: seq<Field>)
    requires DictsOkFields(fields) && PairFreeFields(fields)
    ensures JoinFields(fields) == fields
    decreases fields, 0
  {
    if fields != [] {
      JoinIdentity(fields[0].key);
      JoinTreeIdentity(fields[0].value);
      JoinFieldsIdentity(fields[1..]);
    }
  }

  // ------------------------------------------------ pair freedom by meaning

  lemma {:induction false} MeaningKeys(fields: seq<Field>, k: Str)
    ensures k in MeaningOfFields(fields) <==> exists i :: 0 <= i < |fields| && fields[i].key == k
    decreases |fields|
  {
    if fields != [] {
      MeaningKeys(fields[1..], k);
      assert forall i :: 0 < i < |fields| ==> fields[1..][i - 1] == fields[i];
      if k in MeaningOfFields(fields[1..]) {
        var i :| 0 <= i < |fields[1..]| && fields[1..][i].key == k;
        assert fields[i + 1].key == k;
      }
    }
  }

  /** Under distinct keys the tree and its meaning agree on pair freedom. */
  lemma {:induction false} PairFreeByMeaning(v: Value)
    requires DictsOk(v)
    ensures PairFreeTree(v) <==> PairFreeMeaning(MeaningOf(v))
    decreases v, 0
  {
    match v
    case Arr(items) => PairFreeItemsByMeaning(items);
    case Obj(fields) => PairFreeFieldsByMeaning(fields);
    case _ =>
  }

  lemma {:induction false} PairFreeItemsByMeaning(items: seq<Value>)
    requires DictsOkItems(items)
    ensures PairFreeItems(items) <==> PairFreeMeaning(MList(MeaningOfItems(items)))
    decreases items, 0
  {
    if items != [] {
      PairFreeByMeaning(items[0]);
      PairFreeItemsByMeaning(items[1..]);
      var ms, rest := MeaningOfItems(items), MeaningOfItems(items[1..]);
      assert ms[0] == MeaningOf(items[0]) && ms[1..] == rest;
      assert forall i :: 0 <= i < |rest| ==> rest[i] == ms[i + 1];
      assert forall i :: 0 < i < |ms| ==> ms[i] == rest[i - 1];
    }
  }

  lemma {:induction false} PairFreeFieldsByMeaning(fields: seq<Field>)
    requires DistinctKeys(fields) && DictsOkFields(fields)
    ensures PairFreeFields(fields) <==> PairFreeMeaning(MDict(MeaningOfFields(fields)))
    decreases fields, 0
  {
    if fields != [] {
      var f, rest := fields[0], MeaningOfFields(fields[1..]);
      PairFreeByMeaning(f.value);
      assert DistinctKeys(fields[1..]);
      PairFreeFieldsByMeaning(fields[1..]);
      MeaningKeys(fields[1..], f.key);
      assert f.key !in rest by {
        assert forall i :: 0 <= i < |fields[1..]| ==> fields[1..][i] == fields[i + 1];
      }
      assert MeaningOfFields(fields) == rest[f.key := MeaningOf(f.value)];
    }
  }

  lemma {:induction false} DictOfMeaning(pairs: seq<Field>)
    ensures MeaningOfFields(DictOf(pairs)) == MeaningOfFields(pairs)
    ensures DistinctKeys(DictOf(pairs))
    decreases |pairs|
  {
    if pairs != [] {
      var init, last := pairs[..|pairs| - 1], pairs[|pairs| - 1];
      DictOfMeaning(init);
      PutMeaning(DictOf(init), last);
      PutDistinct(DictOf(init), last);
      MeaningAppend(init, last);
      assert pairs == init + [last];
    }
  }

  lemma {:induction false} MeaningAppend(fs: seq<Field>, f: Field)
    ensures MeaningOfFields(fs + [f]) == MeaningOfFields(fs)[f.key := MeaningOf(f.value)]
    decreases |fs|
  {
    if fs == [] {
      assert fs + [f] == [f] + [];
      MeaningCons(f, []);
    } else {
      MeaningAppend(fs[1..], f);
      assert fs + [f] == [fs[0]] + (fs[1..] + [f]);
      MeaningCons(fs[0], fs[1..] + [f]);
    }
  }

  /** Replacing the first entry by one with the same key. */
  lemma ReplaceHeadMeaning(fs: seq<Field>, f: Field)
    requires fs != [] && DistinctKeys(fs) && fs[0].key == f.key
    ensures MeaningOfFields(fs[0 := f]) == MeaningOfFields(fs)[f.key := MeaningOf(f.value)]
  {
    assert forall j :: 0 <= j < |fs[1..]| ==> fs[1..][j] == fs[j + 1];
    MeaningKeys(fs[1..], f.key);
    assert fs[0 := f] == [f] + fs[1..];
    MeaningCons(f, fs[1..]);
  }

  lemma PutDistinct(fs: seq<Field>, f: Field)
    requires DistinctKeys(fs)
    ensures DistinctKeys(Put(fs, f))
  {
  }

  lemma KeyIndexTail(fs: seq<Field>, key: Str)
    requires fs != [] && fs[0].key != key
    ensures KeyIndex(fs, key) == 1 + KeyIndex(fs[1..], key)
  {
  }

  lemma PutTail(fs: seq<Field>, f: Field)
    requires fs != [] && fs[0].key != f.key
    ensures Put(fs, f) == [fs[0]] + Put(fs[1..], f)
  {
    KeyIndexTail(fs, f.key);
  }

  lemma {:induction false} PutMeaning(fs: seq<Field>, f: Field)
    requires DistinctKeys(fs)
    ensures MeaningOfFields(Put(fs, f)) == MeaningOfFields(fs)[f.key := MeaningOf(f.value)]
    decreases |fs|
  {
    if fs == [] {
      MeaningAppend([], f);
    } else if fs[0].key == f.key {
      ReplaceHeadMeaning(fs, f);
    } else {
      PutTail(fs, f);
      PutMeaning(fs[1..], f);
      MeaningCons(fs[0], Put(fs[1..], f));
    }
  }

  /** Whatever is joined is pair free. */
  lemma {:induction false} JoinTreePairFree(v: Value)
    ensures PairFreeMeaning(MeaningOf(JoinTree(v)))
    decreases v, 0
  {
    match v
    case Text(s) => JoinPairFree(s);
    case Arr(items) => JoinItemsPairFree(items);
    case Obj(fields) =>
      JoinFieldsPairFree(fields);
      DictOfMeaning(JoinFields(fields));
    case _ =>
  }

  lemma {:induction false} JoinItemsPairFree(items: seq<Value>)
    ensures PairFreeMeaning(MList(MeaningOfItems(JoinItems(items))))
    decreases items, 0
  {
    if items != [] {
      JoinTreePairFree(items[0]);
      JoinItemsPairFree(items[1..]);
      var ms, rest := MeaningOfItems(JoinItems(items)), MeaningOfItems(JoinItems(items[1..]));
      assert JoinItems(items)[1..] == JoinItems(items[1..]);
      assert forall i :: 0 < i < |ms| ==> ms[i] == rest[i - 1];
    }
  }

  lemma {:induction false} JoinFieldsPairFree(fields: seq<Field>)
    ensures PairFreeMeaning(MDict(MeaningOfFields(JoinFields(fields))))
    decreases fields, 0
  {
    if fields != [] {
      JoinPairFree(fields[0].key);
      JoinTreePairFree(fields[0].value);
      JoinFieldsPairFree(fields[1..]);
      assert JoinFields(fields)[1..] == JoinFields(fields[1..]);
    }
  }

  // -------------------------------------------------------------- sort_keys

  lemma MeaningCons(f: Field, fs: seq<Field>)
    ensures MeaningOfFields([f] + fs) == map[f.key := MeaningOf(f.value)] + MeaningOfFields(fs)
  {
    assert ([f] + fs)[1..] == fs;
  }

  lemma {:induction false} InsertMeaning(f: Field, fs: seq<Field>)
    requires forall i :: 0 <= i < |fs| ==> fs[i].key != f.key
    ensures MeaningOfFields(InsertField(f, fs)) == MeaningOfFields(fs)[f.key := MeaningOf(f.value)]
    decreases |fs|
  {
    if fs == [] || StrLessEq(f.key, fs[0].key) {
      MeaningCons(f, fs);
      MeaningKeys(fs, f.key);
    } else {
      assert forall i :: 0 <= i < |fs[1..]| ==> fs[1..][i] == fs[i + 1];
      InsertMeaning(f, fs[1..]);
      MeaningCons(fs[0], InsertField(f, fs[1..]));
      MeaningCons(fs[0], fs[1..]);
      assert fs == [fs[0]] + fs[1..];
    }
  }

  lemma {:induction false} InsertPermutes(f: Field, fs: seq<Field>)
    ensures multiset(InsertField(f, fs)) == multiset([f] + fs)
    decreases |fs|
  {
    if fs != [] && !StrLessEq(f.key, fs[0].key) {
      InsertPermutes(f, fs[1..]);
      assert fs == [fs[0]] + fs[1..];
    }
  }

  lemma DistinctByMultiset(fs: seq<Field>, gs: seq<Field>)
    requires DistinctKeys(fs) && multiset(fs) == multiset(gs)
    ensures DistinctKeys(gs)
  {
    forall i, j | 0 <= i < j < |gs| ensures gs[i].key != gs[j].key {
      assert gs[i] in multiset(gs) && gs[j] in multiset(gs);
      assert gs[i] in fs && gs[j] in fs;
      if gs[i] == gs[j] {
        SplitAt(gs, i);
        assert gs[j] in gs[i + 1..] by { assert gs[i + 1..][j - i - 1] == gs[j]; }
        assert multiset(fs)[gs[i]] >= 2;
        DistinctOnce(fs, gs[i]);
        assert false;
      }
    }
  }

  lemma SplitAt(gs: seq<Field>, i: nat)
    requires i < |gs|
    ensures multiset(gs) == multiset(gs[..i]) + multiset{gs[i]} + multiset(gs[i + 1..])
  {
    assert gs == gs[..i] + [gs[i]] + gs[i + 1..];
  }

  lemma DistinctOnce(fs: seq<Field>, f: Field)
    requires DistinctKeys(fs)
    ensures multiset(fs)[f] <= 1
  {
    if f in fs {
      var i :| 0 <= i < |fs| && fs[i] == f;
      SplitAt(fs, i);
      assert f !in fs[..i] && f !in fs[i + 1..];
    }
  }

  lemma {:induction false} SortPermutes(fs: seq<Field>)
    ensures multiset(SortFields(fs)) == multiset(fs)
    decreases |fs|
  {
    if fs != [] {
      SortPermutes(fs[1..]);
      InsertPermutes(fs[0], SortFields(fs[1..]));
      assert fs == [fs[0]] + fs[1..];
    }
  }

  /** The first key of a dict is not among the others, however they are sorted. */
  lemma HeadKeyFresh(fs: seq<Field>)
    requires fs != [] && DistinctKeys(fs)
    ensures DistinctKeys(fs[1..])
    ensures forall i :: 0 <= i < |SortFields(fs[1..])| ==> SortFields(fs[1..])[i].key != fs[0].key
  {
    var rest := fs[1..];
    assert forall i :: 0 <= i < |rest| ==> rest[i] == fs[i + 1];
    SortPermutes(rest);
    forall i | 0 <= i < |SortFields(rest)| ensures SortFields(rest)[i].key != fs[0].key {
      assert SortFields(rest)[i] in multiset(rest);
    }
  }

  /** Sorting a dict's entries permutes them and keeps its meaning. */
  lemma {:induction false} SortMeaning(fs: seq<Field>)
    requires DistinctKeys(fs)
    ensures MeaningOfFields(SortFields(fs)) == MeaningOfFields(fs)
    ensures multiset(SortFields(fs)) == multiset(fs) && DistinctKeys(SortFields(fs))
    decreases |fs|
  {
    SortPermutes(fs);
    DistinctByMultiset(fs, SortFields(fs));
    if fs != [] {
      HeadKeyFresh(fs);
      SortMeaning(fs[1..]);
      InsertMeaning(fs[0], SortFields(fs[1..]));
      HeadMeaning(fs);
    }
  }

  lemma HeadMeaning(fs: seq<Field>)
    requires fs != [] && DistinctKeys(fs)
    ensures MeaningOfFields(fs) == MeaningOfFields(fs[1..])[fs[0].key := MeaningOf(fs[0].value)]
  {
    assert forall i :: 0 <= i < |fs[1..]| ==> fs[1..][i] == fs[i + 1];
    MeaningKeys(fs[1..], fs[0].key);
  }

  ghost predicate AllValues(fs: seq<Field>) {
    forall i :: 0 <= i < |fs| ==> Printable(fs[i].value)
  }

  lemma {:induction false} PrintableFields(fs: seq<Field>)
    ensures NumbersOkFields(fs) && DictsOkFields(fs) <==> AllValues(fs)
    decreases |fs|
  {
    if fs != [] {
      PrintableFields(fs[1..]);
      assert forall i :: 0 < i < |fs| ==> fs[i] == fs[1..][i - 1];
      assert forall i :: 0 <= i < |fs[1..]| ==> fs[1..][i] == fs[i + 1];
    }
  }

  /** sort_keys changes the order of entries only. */
  lemma {:induction false} SortTreeMeaning(v: Value)
    requires Printable(v)
    ensures MeaningOf(SortTree(v)) == MeaningOf(v) && Printable(SortTree(v))
    decreases v, 0
  {
    match v
    case Arr(items) => SortItemsMeaning(items);
    case Obj(fields) =>
      SortValuesMeaning(fields);
      var fs := SortValues(fields);
      SortMeaning(fs);
      PrintableFields(fs);
      forall i | 0 <= i < |SortFields(fs)| ensures Printable(SortFields(fs)[i].value) {
        assert SortFields(fs)[i] in multiset(fs);
      }
      PrintableFields(SortFields(fs));
    case _ =>
  }

  lemma {:induction false} SortItemsMeaning(items: seq<Value>)
    requires NumbersOkItems(items) && DictsOkItems(items)
    ensures MeaningOfItems(SortItems(items)) == MeaningOfItems(items)
    ensures NumbersOkItems(SortItems(items)) && DictsOkItems(SortItems(items))
    decreases items, 0
  {
    if items != [] {
      SortTreeMeaning(items[0]);
      SortItemsMeaning(items[1..]);
      assert SortItems(items)[1..] == SortItems(items[1..]);
    }
  }

  lemma {:induction false} SortValuesMeaning(fields: seq<Field>)
    requires NumbersOkFields(fields) && DictsOkFields(fields)
    ensures MeaningOfFields(SortValues(fields)) == MeaningOfFields(fields)
    ensures NumbersOkFields(SortValues(fields)) && DictsOkFields(SortValues(fields))
    ensures |SortValues(fields)| == |fields|
    ensures forall i :: 0 <= i < |fields| ==> SortValues(fields)[i].key == fields[i].key
    decreases fields, 0
  {
    if fields != [] {
      SortTreeMeaning(fields[0].value);
      SortValuesMeaning(fields[1..]);
      assert SortValues(fields)[1..] == SortValues(fields[1..]);
    }
  }

  // ----------------------------------------------------------- replacements

  predicate IsMark(c: char) { c == '<' || c == '>' || c == '&' }

  /** All three replacements at once, character by character. */
  function EscapeMarks(t: string): string {
    if t == "" then ""
    else (if IsMark(t[0]) then Unicode(t[0] as int) else [t[0]]) + EscapeMarks(t[1..])
  }

  predicate MarkFree(t: string) { forall i :: 0 <= i < |t| ==> !IsMark(t[i]) }

  lemma {:induction false} ReplaceAppend(a: string, b: string, c: char, sub: string)
    ensures Replace(a + b, c, sub) == Replace(a, c, sub) + Replace(b, c, sub)
    decreases |a|
  {
    if a == "" {
      assert a + b == b;
    } else {
      assert (a + b)[1..] == a[1..] + b;
      ReplaceAppend(a[1..], b, c, sub);
    }
  }

  lemma {:induction false} ReplaceAbsent(a: string, c: char, sub: string)
    requires c !in a
    ensures Replace(a, c, sub) == a
    decreases |a|
  {
    if a != "" {
      ReplaceAbsent(a[1..], c, sub);
    }
  }

  lemma {:induction false} EscapeMarksAppend(a: string, b: string)
    ensures EscapeMarks(a + b) == EscapeMarks(a) + EscapeMarks(b)
    decreases |a|
  {
    if a == "" {
      assert a + b == b;
    } else {
      assert (a + b)[1..] == a[1..] + b;
      EscapeMarksAppend(a[1..], b);
    }
  }

  function ReplaceMarks(t: string): string {
    Replace(Replace(Replace(t, '<', "\\u003c"), '>', "\\u003e"), '&', "\\u0026")
  }

  lemma ReplaceOne(c: char, d: char, sub: string)
    ensures Replace([c], d, sub) == if c == d then sub else [c]
  {
    assert [c][1..] == "";
    assert sub + "" == sub;
  }

  lemma EscapeMarksOne(c: char)
    ensures EscapeMarks([c]) == if IsMark(c) then Unicode(c as int) else [c]
  {
    assert [c][1..] == "";
    assert IsMark(c) ==> Unicode(c as int) + "" == Unicode(c as int);
  }

  /** One replacement on a text that is a single character or has been replaced
      already. */
  lemma ReplaceNext(c: char, a: string, done: bool, d: char, sub: string)
    requires if done then d !in a else a == [c]
    ensures Replace(a, d, sub) == if !done && c == d then sub else a
  {
    if done {
      ReplaceAbsent(a, d, sub);
    } else {
      ReplaceOne(c, d, sub);
    }
  }

  lemma MarkEscapes()
    ensures Unicode(0x3C) == "\\u003c" && Unicode(0x3E) == "\\u003e" && Unicode(0x26) == "\\u0026"
    ensures MarkFree(Unicode(0x3C)) && MarkFree(Unicode(0x3E)) && MarkFree(Unicode(0x26))
  {
  }

  lemma ReplaceMarksChar(c: char)
    ensures ReplaceMarks([c]) == EscapeMarks([c])
  {
    EscapeMarksOne(c);
    MarkEscapes();
    var a := if c == '<' then Unicode(0x3C) else [c];
    var b := if c == '>' then Unicode(0x3E) else a;
    ReplaceOne(c, '<', Unicode(0x3C));
    ReplaceNext(c, a, c == '<', '>', Unicode(0x3E));
    ReplaceNext(c, b, c == '<' || c == '>', '&', Unicode(0x26));
  }

  lemma ReplaceMarksAppend(a: string, b: string)
    ensures ReplaceMarks(a + b) == ReplaceMarks(a) + ReplaceMarks(b)
  {
    ReplaceAppend(a, b, '<', "\\u003c");
    var a1, b1 := Replace(a, '<', "\\u003c"), Replace(b, '<', "\\u003c");
    ReplaceAppend(a1, b1, '>', "\\u003e");
    ReplaceAppend(Replace(a1, '>', "\\u003e"), Replace(b1, '>', "\\u003e"), '&', "\\u0026");
  }

  /** The three replacements in a row equal one simultaneous character map: no
      inserted escape is rewritten by a later replacement. */
  lemma {:induction false} SequentialIsSimultaneous(t: string)
    ensures Replace(Replace(Replace(t, '<', "\\u003c"), '>', "\\u003e"), '&', "\\u0026") == EscapeMarks(t)
    decreases |t|
  {
    if t != "" {
      SequentialIsSimultaneous(t[1..]);
      ReplaceMarksChar(t[0]);
      assert t == [t[0]] + t[1..];
      ReplaceMarksAppend([t[0]], t[1..]);
      EscapeMarksAppend([t[0]], t[1..]);
    }
  }

  lemma {:induction false} EscapeMarksAbsent(a: string)
    requires MarkFree(a)
    ensures EscapeMarks(a) == a
    decreases |a|
  {
    if a != "" {
      EscapeMarksAbsent(a[1..]);
    }
  }

  lemma {:induction false} EscapeMarksFree(t: string)
    ensures MarkFree(EscapeMarks(t))
    decreases |t|
  {
    if t != "" {
      EscapeMarksFree(t[1..]);
    }
  }

  lemma EscapeMarksPrefix(a: string, b: string)
    requires MarkFree(a)
    ensures EscapeMarks(a + b) == a + EscapeMarks(b)
  {
    EscapeMarksAppend(a, b);
    EscapeMarksAbsent(a);
  }

  lemma EscapeMarksPrefixes(a: string, b: string, t: string)
    requires MarkFree(a) && MarkFree(b)
    ensures EscapeMarks(a + (b + t)) == a + (b + EscapeMarks(t))
  {
    EscapeMarksPrefix(a, b + t);
    EscapeMarksPrefix(b, t);
  }

  lemma EscapeMarksBrackets(open: string, st: Style, depth: nat, inside: string, close: string, rest: string)
    requires MarkFree(open) && MarkFree(close)
    ensures EscapeMarks(open + (Gap(st, depth + 1) + inside)) == open + (Gap(st, depth + 1) + EscapeMarks(inside))
    ensures EscapeMarks(Gap(st, depth) + (close + rest)) == Gap(st, depth) + (close + EscapeMarks(rest))
  {
    EscapeMarksPrefixes(open, Gap(st, depth + 1), inside);
    EscapeMarksPrefixes(Gap(st, depth), close, rest);
  }

  lemma EscapeMarksChar(c: CodePoint)
    ensures EscapeMarks(EscapeChar(c, false)) == EscapeChar(c, true)
  {
    var t := EscapeChar(c, false);
    if |t| == 1 {
      assert t[1..] == "";
    } else {
      EscapeMarksAbsent(t);
    }
  }

  lemma {:induction false} EscapeMarksString(s: Str, rest: string)
    ensures EscapeMarks(Escape(s, false, rest)) == Escape(s, true, EscapeMarks(rest))
    decreases |s|
  {
    if s != [] {
      EscapeMarksAppend(EscapeChar(s[0], false), Escape(s[1..], false, rest));
      EscapeMarksChar(s[0]);
      EscapeMarksString(s[1..], rest);
    }
  }

  lemma EscapeMarksQuote(s: Str, rest: string)
    ensures EscapeMarks(Quote(s, false, rest)) == Quote(s, true, EscapeMarks(rest))
  {
    EscapeMarksPrefix("\"", Escape(s, false, "\"" + rest));
    EscapeMarksString(s, "\"" + rest);
    EscapeMarksPrefix("\"", rest);
  }

  /** On printed text the character map acts inside string literals only, so its
      effect is that of the printer's own `safe` style. */
  lemma {:induction false} EscapeMarksPrint(v: Value, ind: bool, depth: nat, rest: string)
    requires NumbersOk(v)
    ensures EscapeMarks(Print(v, Style(ind, false), depth, rest)) ==
            Print(v, Style(ind, true), depth, EscapeMarks(rest))
    decreases v, 0
  {
    var st := Style(ind, false);
    match v
    case Null => EscapeMarksPrefix("null", rest);
    case Bool(b) => EscapeMarksPrefix(if b then "true" else "false", rest);
    case Num(token) => EscapeMarksPrefix(token, rest);
    case Text(s) => EscapeMarksQuote(s, rest);
    case Arr(items) =>
      if items == [] {
        EscapeMarksPrefix("[]", rest);
      } else {
        var close := Gap(st, depth) + ("]" + rest);
        EscapeMarksItems(items, ind, depth + 1, close);
        EscapeMarksBrackets("[", st, depth, PrintItems(items, st, depth + 1, close), "]", rest);
      }
    case Obj(fields) =>
      if fields == [] {
        EscapeMarksPrefix("{}", rest);
      } else {
        var close := Gap(st, depth) + ("}" + rest);
        EscapeMarksFields(fields, ind, depth + 1, close);
        EscapeMarksBrackets("{", st, depth, PrintFields(fields, st, depth + 1, close), "}", rest);
      }
  }

  lemma {:induction false} EscapeMarksItems(items: seq<Value>, ind: bool, depth: nat, rest: string)
    requires NumbersOkItems(items)
    ensures EscapeMarks(PrintItems(items, Style(ind, false), depth, rest)) ==
            PrintItems(items, Style(ind, true), depth, EscapeMarks(rest))
    decreases items, 0
  {
    if items != [] {
      var st := Style(ind, false);
      var more := PrintItems(items[1..], st, depth, rest);
      var tail := if |items| == 1 then rest else "," + (ItemGap(st, depth) + more);
      EscapeMarksPrint(items[0], ind, depth, tail);
      EscapeMarksItems(items[1..], ind, depth, rest);
      EscapeMarksPrefixes(",", ItemGap(st, depth), more);
    }
  }

  lemma {:induction false} EscapeMarksFields(fields: seq<Field>, ind: bool, depth: nat, rest: string)
    requires NumbersOkFields(fields)
    ensures EscapeMarks(PrintFields(fields, Style(ind, false), depth, rest)) ==
            PrintFields(fields, Style(ind, true), depth, EscapeMarks(rest))
    decreases fields, 0
  {
    if fields != [] {
      var st := Style(ind, false);
      var more := PrintFields(fields[1..], st, depth, rest);
      var tail := if |fields| == 1 then rest else "," + (ItemGap(st, depth) + more);
      var value := Print(fields[0].value, st, depth, tail);
      EscapeMarksPrint(fields[0].value, ind, depth, tail);
      EscapeMarksQuote(fields[0].key, ": " + value);
      EscapeMarksPrefix(": ", value);
      EscapeMarksFields(fields[1..], ind, depth, rest);
      EscapeMarksPrefixes(",", ItemGap(st, depth), more);
    }
  }

  // ------------------------------------------------------------ main results

  /** A value as `_safe_json` text reads back: keys sorted, surrogate pairs joined. */
  function ReadBack(v: Value): Value { JoinTree(SortTree(v)) }

  /** `_safe_json` on every payload: the text is free of `<`, `>` and `&`, always
      reads back, and reads back as the same Python value if and only if no
      string in the payload has a high surrogate directly followed by a low one. */
  lemma SafeJsonExact(v: Value)
    requires Printable(v)
    ensures MarkFree(SafeJson(v))
    ensures Parse(SafeJson(v)) == Some(ReadBack(v))
    ensures MeaningOf(Parse(SafeJson(v)).value) == MeaningOf(v) <==> PairFreeTree(v)
  {
    var w := SortTree(v);
    SortTreeMeaning(v);
    SequentialIsSimultaneous(DumpsSorted(v));
    EscapeMarksFree(DumpsSorted(v));
    EscapeMarksPrint(w, false, 0, "");
    var st := Style(false, true);
    PrintHead(w, st, 0, "");
    ValueRoundTrip(w, st, 0, "");
    assert Parse(SafeJson(v)) == Some(JoinTree(w));
    JoinTreePairFree(w);
    PairFreeByMeaning(v);
    PairFreeByMeaning(w);
    if PairFreeTree(v) {
      JoinTreeIdentity(w);
    }
  }

  /** json.loads after json.dumps(indent=2) gives the identical value, entry order
      included, if and only if the value is pair free. */
  lemma IndentedExact(v: Value)
    requires Printable(v)
    ensures Parse(DumpsIndented(v)) == Some(JoinTree(v))
    ensures Parse(DumpsIndented(v)) == Some(v) <==> PairFreeTree(v)
  {
    var st := Style(true, false);
    PrintHead(v, st, 0, "");
    ValueRoundTrip(v, st, 0, "");
    JoinTreePairFree(v);
    PairFreeByMeaning(v);
    if PairFreeTree(v) {
      JoinTreeIdentity(v);
    }
  }

  // ------------------------------------------------ what comes off the wire

  lemma CharAtNoPair(t: string)
    ensures CharAt(t).Some? && IsLow(CharAt(t).value.0) ==> StartsLow(t)
    ensures CharAt(t).Some? && IsHigh(CharAt(t).value.0) ==> !StartsLow(CharAt(t).value.1)
  {
  }

  lemma {:induction false} ParseCharsPairFree(t: string)
    ensures ParseChars(t).Some? ==> PairFree(ParseChars(t).value.0)
    ensures ParseChars(t).Some? && ParseChars(t).value.0 != [] ==>
              t != "" && t[0] != '"' && CharAt(t).Some? && CharAt(t).value.0 == ParseChars(t).value.0[0]
    decreases |t|
  {
    if t != "" && t[0] != '"' && CharAt(t).Some? && ParseChars(t).Some? {
      var (c, u) := CharAt(t).value;
      ParseCharsPairFree(u);
      CharAtNoPair(t);
      CharAtNoPair(u);
      var s := ParseChars(t).value.0;
      assert s == [c] + ParseChars(u).value.0;
      assert s[1..] == ParseChars(u).value.0;
      PairFreeTail(s);
    }
  }

  ghost predicate Clean(v: Value) { Printable(v) && PairFreeTree(v) }

  ghost predicate CleanFields(fs: seq<Field>) {
    forall i :: 0 <= i < |fs| ==> PairFree(fs[i].key) && Clean(fs[i].value)
  }

  lemma {:induction false} CleanFieldsByParts(fs: seq<Field>)
    requires CleanFields(fs)
    ensures NumbersOkFields(fs) && DictsOkFields(fs) && PairFreeFields(fs)
    decreases |fs|
  {
    if fs != [] {
      assert forall i :: 0 <= i < |fs[1..]| ==> fs[1..][i] == fs[i + 1];
      CleanFieldsByParts(fs[1..]);
    }
  }

  lemma {:induction false} DictOfClean(pairs: seq<Field>)
    requires CleanFields(pairs)
    ensures CleanFields(DictOf(pairs)) && DistinctKeys(DictOf(pairs))
    decreases |pairs|
  {
    if pairs != [] {
      DictOfClean(pairs[..|pairs| - 1]);
      assert Clean(pairs[|pairs| - 1].value);
    }
  }

  /** Every value that json.loads reads from a text of Unicode scalar values is one
      that json.dumps prints back exactly. */
  lemma ParseClean(t: string)
    ensures Parse(t).Some? ==> Clean(Parse(t).value)
  {
    ParseValueClean(SkipSpace(t));
  }

  lemma {:induction false} ParseValueClean(t: string)
    ensures ParseValue(t).Some? ==> Clean(ParseValue(t).value.0)
    decreases |t|, 0
  {
    if t != "" && ParseValue(t).Some? {
      var u := SkipSpace(t[1..]);
      if t[0] == '"' {
        ParseCharsPairFree(t[1..]);
      } else if t[0] == '[' && !(u != "" && u[0] == ']') {
        ParseItemsClean(u);
      } else if t[0] == '{' && !(u != "" && u[0] == '}') {
        ParseFieldsClean(u);
        DictOfClean(ParseFields(u).value.0);
        CleanFieldsByParts(DictOf(ParseFields(u).value.0));
      }
    }
  }

  lemma {:induction false} ParseItemsClean(t: string)
    ensures ParseItems(t).Some? ==> Clean(Arr(ParseItems(t).value.0))
    decreases |t|, 1
  {
    ParseValueClean(t);
    if ParseItems(t).Some? {
      var (v, rest) := ParseValue(t).value;
      var u := SkipSpace(rest);
      if u[0] == ',' {
        var w := SkipSpace(u[1..]);
        ParseItemsClean(w);
        assert ParseItems(t).value.0 == [v] + ParseItems(w).value.0;
        assert ([v] + ParseItems(w).value.0)[1..] == ParseItems(w).value.0;
      }
    }
  }

  lemma {:induction false} ParseFieldsClean(t: string)
    ensures ParseFields(t).Some? ==> CleanFields(ParseFields(t).value.0)
    decreases |t|, 1
  {
    if ParseFields(t).Some? {
      var (f, rest) := ParseField(t).value;
      ParseCharsPairFree(t[1..]);
      var colon := SkipSpace(ParseChars(t[1..]).value.1);
      ParseValueClean(SkipSpace(colon[1..]));
      var u := SkipSpace(rest);
      if u[0] == ',' {
        ParseFieldsClean(SkipSpace(u[1..]));
      }
    }
  }

  /** The tree as it is read back is its own only when it is pair free. */
  lemma JoinTreeExact(v: Value)
    requires Printable(v)
    ensures JoinTree(v) == v <==> PairFreeTree(v)
    ensures Clean(JoinTree(v))
  {
    IndentedExact(v);
    ParseClean(DumpsIndented(v));
  }

  ghost predicate DictValues(fs: seq<Field>) {
    forall i :: 0 <= i < |fs| ==> DictsOk(fs[i].value)
  }

  lemma {:induction false} DictsByParts(fs: seq<Field>)
    requires DictValues(fs)
    ensures DictsOkFields(fs)
    decreases |fs|
  {
    if fs != [] {
      assert forall i :: 0 <= i < |fs[1..]| ==> fs[1..][i] == fs[i + 1];
      DictsByParts(fs[1..]);
    }
  }

  lemma {:induction false} DictOfDicts(pairs: seq<Field>)
    requires DictValues(pairs)
    ensures DictValues(DictOf(pairs)) && DistinctKeys(DictOf(pairs))
    decreases |pairs|
  {
    if pairs != [] {
      DictOfDicts(pairs[..|pairs| - 1]);
      PutDistinct(DictOf(pairs[..|pairs| - 1]), pairs[|pairs| - 1]);
    }
  }

  /** The joined tree is a Python value again: its dicts have distinct keys. */
  lemma {:induction false} JoinTreeDicts(v: Value)
    ensures DictsOk(JoinTree(v))
    decreases v, 0
  {
    match v
    case Arr(items) => JoinItemsDicts(items);
    case Obj(fields) =>
      JoinFieldsDicts(fields);
      DictOfDicts(JoinFields(fields));
      DictsByParts(DictOf(JoinFields(fields)));
    case _ =>
  }

  lemma {:induction false} JoinItemsDicts(items: seq<Value>)
    ensures DictsOkItems(JoinItems(items))
    decreases items, 0
  {
    if items != [] {
      JoinTreeDicts(items[0]);
      JoinItemsDicts(items[1..]);
    }
  }

  lemma {:induction false} JoinFieldsDicts(fields: seq<Field>)
    ensures DictValues(JoinFields(fields))
    decreases fields, 0
  {
    if fields != [] {
      JoinTreeDicts(fields[0].value);
      JoinFieldsDicts(fields[1..]);
    }
  }

  /** Joining once joins all. */
  lemma JoinTreeTwice(v: Value)
    ensures JoinTree(JoinTree(v)) == JoinTree(v)
  {
    JoinTreeDicts(v);
    JoinTreePairFree(v);
    PairFreeByMeaning(JoinTree(v));
    JoinTreeIdentity(JoinTree(v));
  }

  lemma JoinTwice(s: Str)
    ensures Join(Join(s)) == Join(s)
  {
    JoinPairFree(s);
    JoinIdentity(Join(s));
  }

  // ------------------------------------------------- dicts with known entries

  lemma {:induction false} JoinFieldsAt(fs: seq<Field>)
    ensures |JoinFields(fs)| == |fs|
    ensures forall i :: 0 <= i < |fs| ==> JoinFields(fs)[i] == Field(Join(fs[i].key), JoinTree(fs[i].value))
    decreases |fs|
  {
    if fs != [] {
      JoinFieldsAt(fs[1..]);
      assert forall i :: 0 < i < |fs| ==> fs[i] == fs[1..][i - 1];
      assert forall i :: 0 < i < |fs| ==> JoinFields(fs)[i] == JoinFields(fs[1..])[i - 1];
    }
  }

  /** A dict with plain keys is read back entry by entry. */
  lemma DictJoined(fs: seq<Field>)
    requires DistinctKeys(fs) && forall i :: 0 <= i < |fs| ==> PairFree(fs[i].key)
    ensures JoinTree(Obj(fs)) == Obj(JoinFields(fs)) && |JoinFields(fs)| == |fs|
    ensures forall i :: 0 <= i < |fs| ==> JoinFields(fs)[i] == Field(fs[i].key, JoinTree(fs[i].value))
  {
    JoinFieldsAt(fs);
    forall i | 0 <= i < |fs| ensures Join(fs[i].key) == fs[i].key {
      JoinIdentity(fs[i].key);
    }
    DictOfDistinct(JoinFields(fs));
  }

  lemma LitPairFree(s: string)
    ensures PairFree(Lit(s))
  {
  }

  lemma {:induction false} DictParts(fs: seq<Field>)
    requires forall i :: 0 <= i < |fs| ==> PairFree(fs[i].key) && Printable(fs[i].value)
    ensures NumbersOkFields(fs) && DictsOkFields(fs)
    ensures PairFreeFields(fs) <==> forall i :: 0 <= i < |fs| ==> PairFreeTree(fs[i].value)
    decreases |fs|
  {
    if fs != [] {
      DictParts(fs[1..]);
      assert forall i :: 0 < i < |fs| ==> fs[i] == fs[1..][i - 1];
      assert forall i :: 0 <= i < |fs[1..]| ==> fs[1..][i] == fs[i + 1];
    }
  }

  lemma {:induction false} SortValuesAt(fs: seq<Field>)
    ensures |SortValues(fs)| == |fs|
    ensures forall i :: 0 <= i < |fs| ==> SortValues(fs)[i] == Field(fs[i].key, SortTree(fs[i].value))
    decreases |fs|
  {
    if fs != [] {
      SortValuesAt(fs[1..]);
      assert forall i :: 0 < i < |fs| ==> fs[i] == fs[1..][i - 1];
      assert forall i :: 0 < i < |fs| ==> SortValues(fs)[i] == SortValues(fs[1..])[i - 1];
    }
  }

  lemma GetUnique(fs: seq<Field>, j: nat, key: string)
    requires j < |fs| && DistinctKeys(fs) && fs[j].key == Lit(key)
    ensures Get(Obj(fs), key) == Some(fs[j].value)
  {
    assert KeyIndex(fs, Lit(key)) == j;
  }

  /** Sorting keeps the entries of a dict with plain keys. */
  lemma SortedHas(vs: seq<Field>, f: Field)
    requires DistinctKeys(vs) && (forall i :: 0 <= i < |vs| ==> PairFree(vs[i].key)) && f in vs
    ensures var hs := SortFields(vs);
            DistinctKeys(hs) && (forall i :: 0 <= i < |hs| ==> PairFree(hs[i].key)) && f in hs
  {
    var hs := SortFields(vs);
    SortMeaning(vs);
    forall j | 0 <= j < |hs| ensures PairFree(hs[j].key) {
      assert hs[j] in multiset(vs);
    }
    assert f in multiset(hs);
  }

  lemma JoinedGet(hs: seq<Field>, f: Field, key: string)
    requires DistinctKeys(hs) && (forall i :: 0 <= i < |hs| ==> PairFree(hs[i].key))
    requires f in hs && f.key == Lit(key)
    ensures Get(JoinTree(Obj(hs)), key) == Some(JoinTree(f.value))
  {
    DictJoined(hs);
    var j :| 0 <= j < |hs| && hs[j] == f;
    GetUnique(JoinFields(hs), j, key);
  }

  /** Under each key of a dict with plain keys stands its value, read back. */
  lemma FieldReads(fs: seq<Field>, i: nat, key: string)
    requires DistinctKeys(fs) && (forall j :: 0 <= j < |fs| ==> PairFree(fs[j].key))
    requires i < |fs| && fs[i].key == Lit(key)
    ensures Get(ReadBack(Obj(fs)), key) == Some(ReadBack(fs[i].value))
  {
    var vs := SortValues(fs);
    SortValuesAt(fs);
    assert vs[i] == Field(fs[i].key, SortTree(fs[i].value));
    SortedHas(vs, vs[i]);
    JoinedGet(SortFields(vs), vs[i], key);
  }

  /** A list reads back item by item. */
  lemma {:induction false} ListReads(items: seq<Value>)
    ensures |JoinItems(SortItems(items))| == |items|
    ensures forall i :: 0 <= i < |items| ==> JoinItems(SortItems(items))[i] == ReadBack(items[i])
    decreases |items|
  {
    if items != [] {
      ListReads(items[1..]);
      assert SortItems(items)[1..] == SortItems(items[1..]);
      assert forall i :: 0 < i < |items| ==> items[i] == items[1..][i - 1];
    }
  }
}
