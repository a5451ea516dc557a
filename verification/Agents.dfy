/** The `agents` operation: configured, discovered and contact agents merged into
    one list. The rows of discovered agents are the cached objects themselves, so
    marking their source changes the cache. */
module Agents {
  import opened Json
  import opened Contacts

  datatype Source = Config | Mdns | Both | Contacted

  datatype Known = Known(name: Str, url: Str)

  datatype Row = Row(name: Str, url: Str, source: Source)

  class AgentRow {
    const name: Str
    const url: Str
    var source: Source

    constructor (name: Str, url: Str, source: Source)
      ensures this.name == name && this.url == url && this.source == source
    {
      this.name, this.url, this.source := name, url, source;
    }
  }

  // ---------------------------------------------------------- specification

  function Urls(rows: seq<Row>): set<Str> { set r | r in rows :: r.url }

  function KnownUrls(ks: seq<Known>): set<Str> { set k | k in ks :: k.url }

  function ContactUrls(cs: seq<Contact>): set<Str> { set c | c in cs :: c.url }

  function ConfigRows(ks: seq<Known>): seq<Row> {
    if ks == [] then [] else [Row(ks[0].name, ks[0].url, Config)] + ConfigRows(ks[1..])
  }

  function MarkBoth(rows: seq<Row>, url: Str): seq<Row> {
    if rows == [] then []
    else [if rows[0].url == url then rows[0].(source := Both) else rows[0]] + MarkBoth(rows[1..], url)
  }

  function WithDiscovered(rows: seq<Row>, k: Known): seq<Row> {
    if k.url in Urls(rows) then MarkBoth(rows, k.url) else rows + [Row(k.name, k.url, Mdns)]
  }

  function AddDiscovered(rows: seq<Row>, ks: seq<Known>): seq<Row>
    decreases |ks|
  {
    if ks == [] then rows else AddDiscovered(WithDiscovered(rows, ks[0]), ks[1..])
  }

  function AddContacts(rows: seq<Row>, cs: seq<Contact>): seq<Row>
    decreases |cs|
  {
    if cs == [] then rows
    else AddContacts(if cs[0].url in Urls(rows) then rows else rows + [Row(cs[0].name, cs[0].url, Contacted)], cs[1..])
  }

  /** The merged list; it does not depend on what sources were marked before. */
  function Merge(config: seq<Known>, discovered: seq<Known>, contacts: seq<Contact>): seq<Row> {
    AddContacts(AddDiscovered(ConfigRows(config), discovered), contacts)
  }

  // ------------------------------------------------------------- the operation

  function RowOf(r: AgentRow): Row
    reads r
  {
    Row(r.name, r.url, r.source)
  }

  function RowsOf(rs: seq<AgentRow>): seq<Row>
    reads rs
  {
    if rs == [] then [] else [RowOf(rs[0])] + RowsOf(rs[1..])
  }

  function KnownOf(rs: seq<AgentRow>): seq<Known> {
    if rs == [] then [] else [Known(rs[0].name, rs[0].url)] + KnownOf(rs[1..])
  }

  ghost predicate Distinct(rs: seq<AgentRow>) {
    forall i, j :: 0 <= i < j < |rs| ==> rs[i] != rs[j]
  }

  lemma {:induction false} RowsOfAppend(rs: seq<AgentRow>, r: AgentRow)
    ensures RowsOf(rs + [r]) == RowsOf(rs) + [RowOf(r)]
    decreases |rs|
  {
    if rs == [] {
      assert (rs + [r])[1..] == [];
    } else {
      RowsOfAppend(rs[1..], r);
      assert (rs + [r])[1..] == rs[1..] + [r];
    }
  }

  lemma {:induction false} RowsOfIndex(rs: seq<AgentRow>)
    ensures |RowsOf(rs)| == |rs|
    ensures forall i :: 0 <= i < |rs| ==> RowsOf(rs)[i] == RowOf(rs[i])
    decreases |rs|
  {
    if rs != [] {
      RowsOfIndex(rs[1..]);
    }
  }

  lemma {:induction false} MarkBothIndex(rows: seq<Row>, url: Str)
    ensures |MarkBoth(rows, url)| == |rows|
    ensures forall i :: 0 <= i < |rows| ==>
              MarkBoth(rows, url)[i] == if rows[i].url == url then rows[i].(source := Both) else rows[i]
    decreases |rows|
  {
    if rows != [] {
      MarkBothIndex(rows[1..], url);
    }
  }

  /** The inner loop over the merged list. */
  method MarkMerged(merged: seq<AgentRow>, url: Str)
    requires Distinct(merged)
    modifies set r | r in merged
    ensures RowsOf(merged) == MarkBoth(old(RowsOf(merged)), url)
  {
    ghost var before := RowsOf(merged);
    RowsOfIndex(merged);
    for i := 0 to |merged|
      invariant forall j :: 0 <= j < i ==>
                  RowOf(merged[j]) == if before[j].url == url then before[j].(source := Both) else before[j]
      invariant forall j :: i <= j < |merged| ==> RowOf(merged[j]) == before[j]
    {
      if merged[i].url == url {
        merged[i].source := Both;
      }
    }
    RowsOfIndex(merged);
    MarkBothIndex(before, url);
  }

  lemma MarkBothUrls(rows: seq<Row>, url: Str)
    ensures Urls(MarkBoth(rows, url)) == Urls(rows)
  {
    MarkBothIndex(rows, url);
    forall u ensures u in Urls(MarkBoth(rows, url)) <==> u in Urls(rows) {
      if u in Urls(rows) {
        var i :| 0 <= i < |rows| && rows[i].url == u;
        assert MarkBoth(rows, url)[i] in MarkBoth(rows, url);
      }
      if u in Urls(MarkBoth(rows, url)) {
        var i :| 0 <= i < |rows| && MarkBoth(rows, url)[i].url == u;
        assert rows[i] in rows;
      }
    }
  }

  lemma AppendUrls(rows: seq<Row>, r: Row)
    ensures Urls(rows + [r]) == Urls(rows) + {r.url}
  {
    assert forall x :: x in rows + [r] <==> x in rows || x == r;
  }

  lemma ConfigRowsFrom(ks: seq<Known>, i: nat, done: seq<Row>)
    requires i < |ks|
    ensures done + ConfigRows(ks[i..]) == (done + [Row(ks[i].name, ks[i].url, Config)]) + ConfigRows(ks[i + 1..])
  {
    assert ks[i..][1..] == ks[i + 1..];
  }

  /** Fresh rows for the configured agents. */
  method ConfigAgents(config: seq<Known>) returns (merged: seq<AgentRow>, seen: set<Str>)
    ensures RowsOf(merged) == ConfigRows(config) && seen == Urls(RowsOf(merged))
    ensures Distinct(merged) && forall r :: r in merged ==> fresh(r)
  {
    seen, merged := {}, [];
    for i := 0 to |config|
      invariant Distinct(merged) && forall r :: r in merged ==> fresh(r)
      invariant RowsOf(merged) + ConfigRows(config[i..]) == ConfigRows(config)
      invariant seen == Urls(RowsOf(merged))
    {
      ConfigRowsFrom(config, i, RowsOf(merged));
      merged, seen := AppendNew(merged, seen, config[i].name, config[i].url, Config);
    }
  }

  /** A fresh row at the end. */
  method AppendNew(rows: seq<AgentRow>, seen: set<Str>, name: Str, url: Str, source: Source)
    returns (rows': seq<AgentRow>, seen': set<Str>)
    requires Distinct(rows) && seen == Urls(RowsOf(rows))
    ensures RowsOf(rows') == RowsOf(rows) + [Row(name, url, source)]
    ensures seen' == Urls(RowsOf(rows')) && Distinct(rows')
    ensures forall r :: r in rows' ==> r in rows || fresh(r)
  {
    var row := new AgentRow(name, url, source);
    RowsOfAppend(rows, row);
    AppendUrls(RowsOf(rows), RowOf(row));
    rows' := rows + [row];
    seen' := seen + {url};
  }

  /** One discovered agent: marks the rows of its URL, or joins the list itself. */
  method MergeDiscovered(merged: seq<AgentRow>, agent: AgentRow, seen: set<Str>)
    returns (merged': seq<AgentRow>, seen': set<Str>)
    requires Distinct(merged) && agent !in merged && seen == Urls(RowsOf(merged))
    modifies set r | r in merged || r == agent
    ensures RowsOf(merged') == WithDiscovered(old(RowsOf(merged)), Known(agent.name, agent.url))
    ensures seen' == Urls(RowsOf(merged'))
    ensures merged' == merged || merged' == merged + [agent]
  {
    if agent.url in seen {
      MarkMerged(merged, agent.url);
      MarkBothUrls(old(RowsOf(merged)), agent.url);
      return merged, seen;
    }
    agent.source := Mdns;
    RowsOfAppend(merged, agent);
    AppendUrls(RowsOf(merged), RowOf(agent));
    merged' := merged + [agent];
    seen' := seen + {agent.url};
  }

  lemma {:induction false} KnownOfTail(rs: seq<AgentRow>, i: nat)
    requires i < |rs|
    ensures KnownOf(rs[i..]) == [Known(rs[i].name, rs[i].url)] + KnownOf(rs[i + 1..])
  {
    assert rs[i..][1..] == rs[i + 1..];
  }

  method MergeAllDiscovered(start: seq<AgentRow>, discovered: seq<AgentRow>, urls: set<Str>)
    returns (merged: seq<AgentRow>, seen: set<Str>)
    requires Distinct(start) && Distinct(discovered) && (forall r :: r in start ==> r !in discovered)
    requires urls == Urls(RowsOf(start))
    modifies set r | r in start || r in discovered
    ensures RowsOf(merged) == AddDiscovered(old(RowsOf(start)), KnownOf(discovered))
    ensures seen == Urls(RowsOf(merged))
    ensures Distinct(merged) && forall r :: r in merged ==> r in start || r in discovered
  {
    merged, seen := start, urls;
    ghost var end := AddDiscovered(RowsOf(start), KnownOf(discovered));
    for i := 0 to |discovered|
      invariant Distinct(merged) && forall r :: r in merged ==> r in start || r in discovered
      invariant forall r, j :: r in merged && i <= j < |discovered| ==> r != discovered[j]
      invariant AddDiscovered(RowsOf(merged), KnownOf(discovered[i..])) == end
      invariant seen == Urls(RowsOf(merged))
    {
      KnownOfTail(discovered, i);
      merged, seen := MergeDiscovered(merged, discovered[i], seen);
    }
  }

  /** The whole operation. Its result, row for row, is a function of the three
      sources alone: a second call gives the same rows although the first marked
      the cached objects. */
  method ListAgents(config: seq<Known>, discovered: seq<AgentRow>, contacts: seq<Contact>)
    returns (merged: seq<AgentRow>)
    requires Distinct(discovered)
    modifies set r | r in discovered
    ensures RowsOf(merged) == Merge(config, KnownOf(discovered), contacts)
  {
    var seen;
    merged, seen := ConfigAgents(config);
    merged, seen := MergeAllDiscovered(merged, discovered, seen);
    ghost var end := AddContacts(RowsOf(merged), contacts);
    for i := 0 to |contacts|
      invariant AddContacts(RowsOf(merged), contacts[i..]) == end
      invariant seen == Urls(RowsOf(merged)) && Distinct(merged)
    {
      assert contacts[i..][1..] == contacts[i + 1..];
      if contacts[i].url !in seen {
        merged, seen := AppendNew(merged, seen, contacts[i].name, contacts[i].url, Contacted);
      }
    }
  }

  // ------------------------------------------------------- what the list means

  lemma WithDiscoveredMeans(rows: seq<Row>, k: Known)
    ensures var r := WithDiscovered(rows, k);
            && |r| >= |rows| && Urls(r) == Urls(rows) + {k.url}
            && (|r| == |rows| <==> k.url in Urls(rows)) && |r| <= |rows| + 1
            && (forall i :: 0 <= i < |rows| ==>
                  r[i] == if rows[i].url == k.url then rows[i].(source := Both) else rows[i])
            && (|r| > |rows| ==> r[|rows|] == Row(k.name, k.url, Mdns))
  {
    if k.url in Urls(rows) {
      MarkBothIndex(rows, k.url);
      MarkBothUrls(rows, k.url);
    } else {
      AppendUrls(rows, Row(k.name, k.url, Mdns));
      forall i | 0 <= i < |rows| ensures rows[i].url != k.url {
        assert rows[i] in rows;
      }
    }
  }

  /** Rows from `n` on have URLs of their own. */
  ghost predicate OwnUrls(rows: seq<Row>, n: nat) {
    forall i, j :: 0 <= i < |rows| && n <= j < |rows| && i != j ==> rows[i].url != rows[j].url
  }

  lemma KnownUrlsSplit(ks: seq<Known>)
    requires ks != []
    ensures KnownUrls(ks) == {ks[0].url} + KnownUrls(ks[1..])
  {
    assert ks == [ks[0]] + ks[1..];
  }

  /** At most one row more, and only with a new URL. */
  lemma OwnUrlsKept(rows: seq<Row>, more: seq<Row>, url: Str, n: nat)
    requires n <= |rows| <= |more| <= |rows| + 1 && OwnUrls(rows, n)
    requires forall i :: 0 <= i < |rows| ==> more[i].url == rows[i].url
    requires |more| > |rows| ==> more[|rows|].url == url && url !in Urls(rows)
    ensures OwnUrls(more, n)
  {
    forall i | 0 <= i < |rows| ensures rows[i].url in Urls(rows) {
      assert rows[i] in rows;
    }
  }

  /** How often discovery lists a URL. */
  function Times(ks: seq<Known>, url: Str): nat {
    if ks == [] then 0 else (if ks[0].url == url then 1 else 0) + Times(ks[1..], url)
  }

  lemma {:induction false} TimesListed(ks: seq<Known>, url: Str)
    ensures Times(ks, url) > 0 <==> url in KnownUrls(ks)
    decreases |ks|
  {
    if ks != [] {
      KnownUrlsSplit(ks);
      TimesListed(ks[1..], url);
    }
  }

  /** The mark of a row that is not configured, by how often its URL is discovered. */
  function MarkOf(times: nat): Source {
    if times == 0 then Contacted else if times == 1 then Mdns else Both
  }

  /** The rows that discovery adds after `rows`. */
  lemma {:induction false} AddDiscoveredMarks(rows: seq<Row>, ks: seq<Known>, n: nat, j: nat)
    requires n <= |rows| && OwnUrls(rows, n)
    requires |rows| <= j < |AddDiscovered(rows, ks)|
    ensures var row := AddDiscovered(rows, ks)[j];
            row.source == MarkOf(Times(ks, row.url)) && Times(ks, row.url) > 0
    decreases |ks|
  {
    if ks != [] {
      var mid := WithDiscovered(rows, ks[0]);
      WithDiscoveredMeans(rows, ks[0]);
      OwnUrlsKept(rows, mid, ks[0].url, n);
      AddDiscoveredMeans(mid, ks[1..], n);
      var r := AddDiscovered(mid, ks[1..]);
      TimesListed(ks[1..], r[j].url);
      if j >= |mid| {
        AddDiscoveredMarks(mid, ks[1..], n, j);
        assert ks[0].url in Urls(mid);
        var i :| 0 <= i < |mid| && mid[i].url == ks[0].url;
        assert r[i].url == ks[0].url && r[i].url != r[j].url;
      }
    }
  }

  lemma {:induction false} AddDiscoveredMeans(rows: seq<Row>, ks: seq<Known>, n: nat)
    requires n <= |rows| && OwnUrls(rows, n)
    ensures var r := AddDiscovered(rows, ks);
            && |r| >= |rows| && Urls(r) == Urls(rows) + KnownUrls(ks) && OwnUrls(r, n)
            && (forall i :: 0 <= i < |rows| ==>
                  r[i] == if rows[i].url in KnownUrls(ks) then rows[i].(source := Both) else rows[i])
    decreases |ks|
  {
    if ks != [] {
      var mid := WithDiscovered(rows, ks[0]);
      WithDiscoveredMeans(rows, ks[0]);
      KnownUrlsSplit(ks);
      OwnUrlsKept(rows, mid, ks[0].url, n);
      AddDiscoveredMeans(mid, ks[1..], n);
    }
  }

  lemma {:induction false} AddContactsMeans(rows: seq<Row>, cs: seq<Contact>, n: nat)
    requires n <= |rows| && OwnUrls(rows, n)
    ensures var r := AddContacts(rows, cs);
            && |r| >= |rows| && Urls(r) == Urls(rows) + ContactUrls(cs) && OwnUrls(r, n)
            && r[..|rows|] == rows
            && forall j :: |rows| <= j < |r| ==> r[j].source == Contacted && r[j].url !in Urls(rows)
    decreases |cs|
  {
    if cs != [] {
      assert ContactUrls(cs) == {cs[0].url} + ContactUrls(cs[1..]) by {
        assert cs == [cs[0]] + cs[1..];
      }
      var row := Row(cs[0].name, cs[0].url, Contacted);
      var mid := if cs[0].url in Urls(rows) then rows else rows + [row];
      AppendUrls(rows, row);
      OwnUrlsKept(rows, mid, cs[0].url, n);
      AddContactsMeans(mid, cs[1..], n);
      var r := AddContacts(rows, cs);
      assert r[..|rows|] == r[..|mid|][..|rows|];
      assert |mid| > |rows| ==> r[|rows|] == r[..|mid|][|rows|];
    }
  }

  lemma {:induction false} ConfigRowsMean(ks: seq<Known>)
    ensures |ConfigRows(ks)| == |ks| && Urls(ConfigRows(ks)) == KnownUrls(ks)
    ensures forall i :: 0 <= i < |ks| ==> ConfigRows(ks)[i] == Row(ks[i].name, ks[i].url, Config)
    decreases |ks|
  {
    if ks != [] {
      ConfigRowsMean(ks[1..]);
      assert ks == [ks[0]] + ks[1..];
      assert ConfigRows(ks) == [Row(ks[0].name, ks[0].url, Config)] + ConfigRows(ks[1..]);
    }
  }

  /** The merged list has exactly the URLs of the three sources; configured agents
      come first, unchanged but for "both", which they get exactly when discovery
      lists their URL; every other row's URL is its own. */
  lemma MergeMeans(config: seq<Known>, discovered: seq<Known>, contacts: seq<Contact>)
    ensures var r := Merge(config, discovered, contacts);
            && Urls(r) == KnownUrls(config) + KnownUrls(discovered) + ContactUrls(contacts)
            && |r| >= |config|
            && (forall i :: 0 <= i < |config| ==>
                  r[i] == Row(config[i].name, config[i].url,
                              if config[i].url in KnownUrls(discovered) then Both else Config))
            && OwnUrls(r, |config|)
  {
    ConfigRowsMean(config);
    var rows := ConfigRows(config);
    AddDiscoveredMeans(rows, discovered, |config|);
    var rows2 := AddDiscovered(rows, discovered);
    AddContactsMeans(rows2, contacts, |config|);
    var r := Merge(config, discovered, contacts);
    forall i | 0 <= i < |config| ensures r[i] == rows2[i] {
      assert r[i] == r[..|rows2|][i];
    }
  }

  /** The mark of every row outside the configuration: "both" exactly when
      discovery lists its URL more than once, "mdns" exactly when it does once,
      "contact" exactly when it never does. */
  lemma MergeMarks(config: seq<Known>, discovered: seq<Known>, contacts: seq<Contact>, i: nat)
    requires |config| <= i < |Merge(config, discovered, contacts)|
    ensures var row := Merge(config, discovered, contacts)[i];
            row.source == MarkOf(Times(discovered, row.url)) && row.url !in KnownUrls(config)
  {
    ConfigRowsMean(config);
    var rows := ConfigRows(config);
    AddDiscoveredMeans(rows, discovered, |config|);
    var rows2 := AddDiscovered(rows, discovered);
    AddContactsMeans(rows2, contacts, |config|);
    var r := Merge(config, discovered, contacts);
    TimesListed(discovered, r[i].url);
    if i < |rows2| {
      assert r[i] == r[..|rows2|][i];
      AddDiscoveredMarks(rows, discovered, |config|, i);
    }
    MergeMeans(config, discovered, contacts);
    forall k | 0 <= k < |config| ensures config[k].url != r[i].url {
      assert r[k].url != r[i].url;
    }
  }

  /** The row names the first discovered agent of its URL. */
  ghost predicate NamedFirst(ks: seq<Known>, row: Row) {
    exists k :: 0 <= k < |ks| && ks[k] == Known(row.name, row.url) && forall j :: 0 <= j < k ==> ks[j].url != row.url
  }

  /** The row names the oldest contact of its URL. */
  ghost predicate NamedOldest(cs: seq<Contact>, row: Row) {
    exists k :: 0 <= k < |cs| && cs[k].url == row.url && cs[k].name == row.name
                && forall j :: 0 <= j < k ==> cs[j].url != row.url
  }

  lemma NamedFirstCons(ks: seq<Known>, row: Row)
    requires ks != [] && ks[0].url != row.url && NamedFirst(ks[1..], row)
    ensures NamedFirst(ks, row)
  {
    var tail := ks[1..];
    var k :| 0 <= k < |tail| && tail[k] == Known(row.name, row.url)
      && forall j :: 0 <= j < k ==> tail[j].url != row.url;
    assert ks[k + 1] == Known(row.name, row.url);
    assert forall j :: 0 < j < k + 1 ==> ks[j] == tail[j - 1];
  }

  lemma NamedOldestCons(cs: seq<Contact>, row: Row)
    requires cs != [] && cs[0].url != row.url && NamedOldest(cs[1..], row)
    ensures NamedOldest(cs, row)
  {
    var tail := cs[1..];
    var k :| 0 <= k < |tail| && tail[k].url == row.url && tail[k].name == row.name
      && forall j :: 0 <= j < k ==> tail[j].url != row.url;
    assert cs[k + 1] == tail[k];
    assert forall j :: 0 < j < k + 1 ==> cs[j] == tail[j - 1];
  }

  /** A row of `mid` has the URL `url`, so no other row from `n` on does. */
  lemma OtherUrl(mid: seq<Row>, r: seq<Row>, url: Str, n: nat, j: nat)
    requires |mid| <= j < |r| && n <= j && OwnUrls(r, n) && url in Urls(mid)
    requires forall i :: 0 <= i < |mid| ==> r[i].url == mid[i].url
    ensures r[j].url != url
  {
    var i :| 0 <= i < |mid| && mid[i].url == url;
    assert r[i].url == url;
  }

  lemma {:induction false} AddDiscoveredNames(rows: seq<Row>, ks: seq<Known>, n: nat, j: nat)
    requires n <= |rows| && OwnUrls(rows, n)
    requires |rows| <= j < |AddDiscovered(rows, ks)|
    ensures NamedFirst(ks, AddDiscovered(rows, ks)[j])
    decreases |ks|
  {
    if ks != [] {
      var mid := WithDiscovered(rows, ks[0]);
      WithDiscoveredMeans(rows, ks[0]);
      OwnUrlsKept(rows, mid, ks[0].url, n);
      AddDiscoveredMeans(mid, ks[1..], n);
      var r := AddDiscovered(mid, ks[1..]);
      if j >= |mid| {
        AddDiscoveredNames(mid, ks[1..], n, j);
        OtherUrl(mid, r, ks[0].url, n, j);
        NamedFirstCons(ks, r[j]);
      } else {
        assert ks[0] == Known(r[j].name, r[j].url);
      }
    }
  }

  lemma {:induction false} AddContactsNames(rows: seq<Row>, cs: seq<Contact>, n: nat, j: nat)
    requires n <= |rows| && OwnUrls(rows, n)
    requires |rows| <= j < |AddContacts(rows, cs)|
    ensures NamedOldest(cs, AddContacts(rows, cs)[j])
    decreases |cs|
  {
    if cs != [] {
      var row := Row(cs[0].name, cs[0].url, Contacted);
      var mid := if cs[0].url in Urls(rows) then rows else rows + [row];
      AppendUrls(rows, row);
      OwnUrlsKept(rows, mid, cs[0].url, n);
      AddContactsMeans(mid, cs[1..], n);
      var r := AddContacts(mid, cs[1..]);
      assert forall i :: 0 <= i < |mid| ==> r[i] == r[..|mid|][i];
      if j >= |mid| {
        AddContactsNames(mid, cs[1..], n, j);
        OtherUrl(mid, r, cs[0].url, n, j);
        NamedOldestCons(cs, r[j]);
      } else {
        assert cs[0].url == r[j].url && cs[0].name == r[j].name;
      }
    }
  }

  /** The name of every row outside the configuration: that of the first discovered
      agent with its URL, or, when discovery does not list it, of the oldest contact. */
  lemma MergeNames(config: seq<Known>, discovered: seq<Known>, contacts: seq<Contact>, i: nat)
    requires |config| <= i < |Merge(config, discovered, contacts)|
    ensures var row := Merge(config, discovered, contacts)[i];
            if row.url in KnownUrls(discovered) then NamedFirst(discovered, row) else NamedOldest(contacts, row)
  {
    ConfigRowsMean(config);
    var rows := ConfigRows(config);
    AddDiscoveredMeans(rows, discovered, |config|);
    var rows2 := AddDiscovered(rows, discovered);
    AddContactsMeans(rows2, contacts, |config|);
    var r := Merge(config, discovered, contacts);
    if i < |rows2| {
      assert r[i] == r[..|rows2|][i];
      AddDiscoveredNames(rows, discovered, |config|, i);
    } else {
      AddContactsNames(rows2, contacts, |config|, i);
    }
  }

  /** Every row marked "both" is configured. */
  ghost predicate BothIsConfigured(config: seq<Known>, discovered: seq<Known>, contacts: seq<Contact>) {
    forall row :: row in Merge(config, discovered, contacts) && row.source == Both ==> row.url in KnownUrls(config)
  }

  /** Discovery lists no URL more than once that is not configured. */
  ghost predicate StrangersOnce(config: seq<Known>, discovered: seq<Known>) {
    forall url :: Times(discovered, url) >= 2 ==> url in KnownUrls(config)
  }

  /** "both" means configured and discovered exactly when discovery lists no
      unconfigured URL twice. */
  lemma BothMeansConfigured(config: seq<Known>, discovered: seq<Known>, contacts: seq<Contact>)
    ensures BothIsConfigured(config, discovered, contacts) <==> StrangersOnce(config, discovered)
  {
    var r := Merge(config, discovered, contacts);
    MergeMeans(config, discovered, contacts);
    forall i | 0 <= i < |config| ensures r[i].url in KnownUrls(config) {
      assert config[i] in config;
    }
    forall row | row in r && row.source == Both && row.url !in KnownUrls(config)
      ensures Times(discovered, row.url) >= 2
    {
      var i :| 0 <= i < |r| && r[i] == row;
      if i >= |config| {
        MergeMarks(config, discovered, contacts, i);
      }
    }
    forall url | Times(discovered, url) >= 2 && url !in KnownUrls(config)
      ensures exists row :: row in r && row.source == Both && row.url !in KnownUrls(config)
    {
      TimesListed(discovered, url);
      assert url in Urls(r);
      var i :| 0 <= i < |r| && r[i].url == url;
      if i >= |config| {
        MergeMarks(config, discovered, contacts, i);
      }
      assert r[i] in r;
    }
  }

  /** The simplest such case: one agent that answers twice. */
  lemma ListedTwiceLooksBoth(k: Known)
    ensures !BothIsConfigured([], [k, k], [])
  {
    assert [k, k][1..] == [k] && [k][1..] == [];
    assert Times([], k.url) == 0 && Times([k], k.url) == 1;
    assert Times([k, k], k.url) == 2 && k.url !in KnownUrls([]);
    BothMeansConfigured([], [k, k], []);
  }

  /** Two calls in a row give the same rows. */
  method ListTwice(config: seq<Known>, discovered: seq<AgentRow>, contacts: seq<Contact>)
    returns (first: seq<Row>, second: seq<Row>)
    requires Distinct(discovered)
    modifies set r | r in discovered
    ensures first == second
  {
    var rows := ListAgents(config, discovered, contacts);
    first := RowsOf(rows);
    rows := ListAgents(config, discovered, contacts);
    second := RowsOf(rows);
  }
}
