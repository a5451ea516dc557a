/** Untrusted data wrapped in a reminder tag: a JSON payload that cannot close
    the tag and reads back as the data. */
module Envelope {
  import opened Options
  import opened Json
  import opened JsonExact

  // The literals are kept short and joined, since each is searched for marks below.
  const CLOSE := "<" + "/system-reminder>"

  const TYPE := "\" content-type=\"" + "application/json\" "
  const TRUST := "trust=\"" + "untrusted\">\n"

  function Attributes(source: string): string {
    "system-reminder " + "source=\"" + source + (TYPE + TRUST)
  }

  function OpenTag(source: string): string {
    "<" + Attributes(source)
  }

  function Wrap(source: string, payload: Value): string {
    OpenTag(source) + SafeJson(payload) + ("\n" + CLOSE)
  }

  /** What follows the first `<` of the opening tag, up to the closing tag. */
  function Inside(source: string, payload: Value): string {
    Attributes(source) + (SafeJson(payload) + "\n")
  }

  lemma AttributesHaveNoMark(source: string)
    requires '<' !in source
    ensures '<' !in Attributes(source)
  {
    assert '<' !in "\" content-type=\"";
    assert '<' !in "application/json\" ";
    assert '<' !in TYPE;
    assert '<' !in "trust=\"" && '<' !in "untrusted\">\n";
    assert '<' !in TRUST;
    assert '<' !in "system-reminder " && '<' !in "source=\"";
  }

  lemma Regroup(a: string, b: string, c: string, d: string, e: string)
    ensures (a + b) + c + (d + e) == a + (b + (c + d)) + e
  {
  }

  lemma MarkFreeParts(a: string, b: string, c: string)
    requires '<' !in a && MarkFree(b) && '<' !in c
    ensures '<' !in a + (b + c)
  {
    assert '<' !in b;
  }

  lemma InsideHasNoMark(source: string, payload: Value)
    requires Printable(payload) && MarkFree(source)
    ensures '<' !in Inside(source, payload)
    ensures Wrap(source, payload) == "<" + Inside(source, payload) + CLOSE
  {
    SafeJsonExact(payload);
    AttributesHaveNoMark(source);
    MarkFreeParts(Attributes(source), SafeJson(payload), "\n");
    Regroup("<", Attributes(source), SafeJson(payload), "\n", CLOSE);
  }

  /** The wrapped text has a `<` at its first character and where the closing tag
      starts, and nowhere else: remote data can neither close nor open a tag. */
  lemma TagsAreOurs(source: string, payload: Value, i: nat)
    requires Printable(payload) && MarkFree(source) && i < |Wrap(source, payload)|
    ensures Wrap(source, payload)[i] == '<' <==> i == 0 || i == |Wrap(source, payload)| - |CLOSE|
  {
    InsideHasNoMark(source, payload);
    MarksAt(Inside(source, payload), "/system-reminder>", i);
    assert Wrap(source, payload) == "<" + Inside(source, payload) + ("<" + "/system-reminder>");
  }

  lemma MarksAt(a: string, b: string, i: nat)
    requires '<' !in a && '<' !in b && i < |a| + |b| + 2
    ensures ("<" + a + ("<" + b))[i] == '<' <==> i == 0 || i == |a| + 1
  {
    var t := "<" + a + ("<" + b);
    if 0 < i <= |a| {
      assert t[i] == a[i - 1];
    } else if i > |a| + 1 {
      assert t[i] == b[i - |a| - 2];
    }
  }

  /** The text between the tags parses, and parses to the payload if and only if
      no string in the payload has a surrogate pair to join. */
  lemma EnvelopeReadsBack(source: string, payload: Value)
    requires Printable(payload)
    ensures var t, n := Wrap(source, payload), |OpenTag(source)|;
            var inner := t[n..|t| - |CLOSE| - 1];
            && Parse(inner) == Some(ReadBack(payload))
            && (MeaningOf(Parse(inner).value) == MeaningOf(payload) <==> PairFreeTree(payload))
  {
    SafeJsonExact(payload);
    var t, n := Wrap(source, payload), |OpenTag(source)|;
    assert t[n..|t| - |CLOSE| - 1] == SafeJson(payload);
  }
}
