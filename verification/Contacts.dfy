/** ContactStore: a list of contacts searched front to back, written through to
    its file. */
module Contacts {
  import opened Options
  import opened Json
  import opened JsonRoundTrip
  import opened JsonExact
  import opened Files

  datatype Contact = Contact(url: Str, name: Str, tier: Str, firstSeen: Str, lastSeen: Str)

  /** `_find`: index of the first contact with this URL, or the length. */
  function Find(cs: seq<Contact>, url: Str): (i: nat)
    ensures i <= |cs|
    ensures forall j :: 0 <= j < i ==> cs[j].url != url
    ensures i < |cs| ==> cs[i].url == url
  {
    FirstIndex(cs, (c: Contact) => c.url == url)
  }

  predicate IsKnown(cs: seq<Contact>, url: Str) { Find(cs, url) < |cs| }

  /** The tier that routing sees for a sender. */
  function EffectiveTier(cs: seq<Contact>, url: Str): Option<Str> {
    var i := Find(cs, url);
    if i < |cs| then Some(cs[i].tier) else None
  }

  function WithContact(cs: seq<Contact>, url: Str, name: Str, tier: Str, now: Str): seq<Contact> {
    cs + [Contact(url, name, tier, now, now)]
  }

  function WithTier(cs: seq<Contact>, url: Str, tier: Str): seq<Contact> {
    var i := Find(cs, url);
    if i < |cs| then cs[i := cs[i].(tier := tier)] else cs
  }

  function WithLastSeen(cs: seq<Contact>, url: Str, now: Str): seq<Contact> {
    var i := Find(cs, url);
    if i < |cs| then cs[i := cs[i].(lastSeen := now)] else cs
  }

  /** list.remove(c): drops the first element equal to `c`. */
  function RemoveEqual(cs: seq<Contact>, c: Contact): seq<Contact> {
    if cs == [] then [] else if cs[0] == c then cs[1..] else [cs[0]] + RemoveEqual(cs[1..], c)
  }

  function Without(cs: seq<Contact>, url: Str): seq<Contact> {
    var i := Find(cs, url);
    if i < |cs| then RemoveEqual(cs, cs[i]) else cs
  }

  // ------------------------------------------------------------------- file

  function EncodeContact(c: Contact): Value {
    Obj([Field(Lit("url"), Text(c.url)), Field(Lit("name"), Text(c.name)), Field(Lit("tier"), Text(c.tier)),
         Field(Lit("first_seen"), Text(c.firstSeen)), Field(Lit("last_seen"), Text(c.lastSeen))])
  }

  function EncodeContacts(cs: seq<Contact>): (r: seq<Value>)
    ensures |r| == |cs|
  {
    if cs == [] then [] else [EncodeContact(cs[0])] + EncodeContacts(cs[1..])
  }

  predicate IsContact(v: Value) {
    v.Obj? && |v.fields| == 5 && IsTextField(v.fields[0], "url") && IsTextField(v.fields[1], "name")
    && IsTextField(v.fields[2], "tier") && IsTextField(v.fields[3], "first_seen")
    && IsTextField(v.fields[4], "last_seen")
  }

  function DecodeContact(v: Value): (c: Contact)
    requires IsContact(v)
    ensures EncodeContact(c) == v
  {
    Contact(v.fields[0].value.s, v.fields[1].value.s, v.fields[2].value.s, v.fields[3].value.s, v.fields[4].value.s)
  }

  /** Every item of the file's list has the shape this store writes. */
  predicate OwnFile(f: File) { forall i :: 0 <= i < |LoadList(f)| ==> IsContact(LoadList(f)[i]) }

  function DecodeContacts(items: seq<Value>): (cs: seq<Contact>)
    requires forall i :: 0 <= i < |items| ==> IsContact(items[i])
    ensures EncodeContacts(cs) == items
  {
    if items == [] then [] else [DecodeContact(items[0])] + DecodeContacts(items[1..])
  }

  ghost predicate CleanContact(c: Contact) {
    PairFree(c.url) && PairFree(c.name) && PairFree(c.tier) && PairFree(c.firstSeen) && PairFree(c.lastSeen)
  }

  ghost predicate CleanContacts(cs: seq<Contact>) {
    forall i :: 0 <= i < |cs| ==> CleanContact(cs[i])
  }

  /** The entries of a contact's dict: distinct plain keys, and its texts in order. */
  lemma ContactFields(c: Contact)
    ensures var fs := EncodeContact(c).fields;
            && |fs| == 5 && DistinctKeys(fs) && (forall i :: 0 <= i < 5 ==> PairFree(fs[i].key))
            && fs[0].value == Text(c.url) && fs[1].value == Text(c.name) && fs[2].value == Text(c.tier)
            && fs[3].value == Text(c.firstSeen) && fs[4].value == Text(c.lastSeen)
  {
    var fs := EncodeContact(c).fields;
    assert fs[0].key[0] == 'u' as int && fs[1].key[0] == 'n' as int && fs[2].key[0] == 't' as int;
    assert fs[3].key[0] == 'f' as int && fs[4].key[0] == 'l' as int;
  }

  /** The names under which a contact's texts are stored, which other programs read. */
  lemma StoredUnder(c: Contact)
    ensures var v := EncodeContact(c);
            && Get(v, "url") == Some(Text(c.url)) && Get(v, "name") == Some(Text(c.name))
            && Get(v, "tier") == Some(Text(c.tier)) && Get(v, "first_seen") == Some(Text(c.firstSeen))
            && Get(v, "last_seen") == Some(Text(c.lastSeen))
  {
    var fs := EncodeContact(c).fields;
    ContactFields(c);
    GetUnique(fs, 0, "url");
    GetUnique(fs, 1, "name");
    GetUnique(fs, 2, "tier");
    GetUnique(fs, 3, "first_seen");
    GetUnique(fs, 4, "last_seen");
  }

  lemma EncodeContactParts(c: Contact)
    ensures Printable(EncodeContact(c))
    ensures PairFreeTree(EncodeContact(c)) <==> CleanContact(c)
  {
    ContactFields(c);
    TextsClean(EncodeContact(c).fields, c);
  }

  lemma TextsClean(fs: seq<Field>, c: Contact)
    requires |fs| == 5 && DistinctKeys(fs) && (forall i :: 0 <= i < 5 ==> PairFree(fs[i].key))
    requires fs[0].value == Text(c.url) && fs[1].value == Text(c.name) && fs[2].value == Text(c.tier)
    requires fs[3].value == Text(c.firstSeen) && fs[4].value == Text(c.lastSeen)
    ensures Printable(Obj(fs)) && (PairFreeTree(Obj(fs)) <==> CleanContact(c))
  {
    DictParts(fs);
  }

  lemma {:induction false} EncodeContactsParts(cs: seq<Contact>)
    ensures NumbersOkItems(EncodeContacts(cs)) && DictsOkItems(EncodeContacts(cs))
    ensures PairFreeItems(EncodeContacts(cs)) <==> CleanContacts(cs)
    decreases |cs|
  {
    if cs != [] {
      EncodeContactParts(cs[0]);
      EncodeContactsParts(cs[1..]);
      assert EncodeContacts(cs)[1..] == EncodeContacts(cs[1..]);
      assert forall i :: 0 < i < |cs| ==> cs[i] == cs[1..][i - 1];
      assert forall i :: 0 <= i < |cs[1..]| ==> cs[1..][i] == cs[i + 1];
    }
  }

  /** A contact as it is read back: the surrogate pairs in its texts joined. */
  function JoinContact(c: Contact): Contact {
    Contact(Join(c.url), Join(c.name), Join(c.tier), Join(c.firstSeen), Join(c.lastSeen))
  }

  function JoinContacts(cs: seq<Contact>): (r: seq<Contact>)
    ensures |r| == |cs|
    ensures forall i :: 0 <= i < |cs| ==> r[i] == JoinContact(cs[i])
  {
    if cs == [] then [] else [JoinContact(cs[0])] + JoinContacts(cs[1..])
  }

  lemma JoinedTexts(fs: seq<Field>, gs: seq<Field>, c: Contact)
    requires |fs| == |gs| == 5 && DistinctKeys(fs)
    requires forall i :: 0 <= i < 5 ==> PairFree(fs[i].key) && fs[i].key == gs[i].key
    requires fs[0].value == Text(c.url) && fs[1].value == Text(c.name) && fs[2].value == Text(c.tier)
    requires fs[3].value == Text(c.firstSeen) && fs[4].value == Text(c.lastSeen)
    requires gs[0].value == Text(Join(c.url)) && gs[1].value == Text(Join(c.name)) && gs[2].value == Text(Join(c.tier))
    requires gs[3].value == Text(Join(c.firstSeen)) && gs[4].value == Text(Join(c.lastSeen))
    ensures JoinTree(Obj(fs)) == Obj(gs)
  {
    DictJoined(fs);
    assert JoinFields(fs) == gs;
  }

  lemma JoinedContact(c: Contact)
    ensures JoinTree(EncodeContact(c)) == EncodeContact(JoinContact(c))
  {
    ContactFields(c);
    ContactFields(JoinContact(c));
    SameKeys(c, JoinContact(c));
    JoinedTexts(EncodeContact(c).fields, EncodeContact(JoinContact(c)).fields, c);
  }

  lemma SameKeys(c: Contact, d: Contact)
    ensures forall i :: 0 <= i < 5 ==> EncodeContact(c).fields[i].key == EncodeContact(d).fields[i].key
  {
  }

  lemma {:induction false} JoinedContacts(cs: seq<Contact>)
    ensures JoinItems(EncodeContacts(cs)) == EncodeContacts(JoinContacts(cs))
    decreases |cs|
  {
    if cs != [] {
      JoinedContact(cs[0]);
      JoinedContacts(cs[1..]);
      assert EncodeContacts(cs)[1..] == EncodeContacts(cs[1..]);
      assert JoinContacts(cs)[1..] == JoinContacts(cs[1..]);
    }
  }

  lemma JoinContactExact(c: Contact)
    ensures JoinContact(c) == c <==> CleanContact(c)
    ensures CleanContact(JoinContact(c))
  {
    JoinIdentity(c.url);
    JoinIdentity(c.name);
    JoinIdentity(c.tier);
    JoinIdentity(c.firstSeen);
    JoinIdentity(c.lastSeen);
    JoinPairFree(c.url);
    JoinPairFree(c.name);
    JoinPairFree(c.tier);
    JoinPairFree(c.firstSeen);
    JoinPairFree(c.lastSeen);
  }

  /** The list as it is read back is the list itself exactly when no text of it has
      a surrogate pair to join. */
  lemma JoinContactsExact(cs: seq<Contact>)
    ensures JoinContacts(cs) == cs <==> CleanContacts(cs)
    ensures CleanContacts(JoinContacts(cs))
  {
    forall i | 0 <= i < |cs|
      ensures (JoinContact(cs[i]) == cs[i] <==> CleanContact(cs[i])) && CleanContact(JoinContact(cs[i]))
    {
      JoinContactExact(cs[i]);
    }
  }

  /** Loading what was written gives the list in memory with its surrogate pairs
      joined, and so the list itself exactly when it has none. */
  lemma ContactsRecover(cs: seq<Contact>)
    ensures LoadList(SaveList(EncodeContacts(cs))) == EncodeContacts(JoinContacts(cs))
    ensures LoadList(SaveList(EncodeContacts(cs))) == EncodeContacts(cs) <==> CleanContacts(cs)
  {
    EncodeContactsParts(cs);
    SavedListJoins(EncodeContacts(cs));
    SavedListLoads(EncodeContacts(cs));
    JoinedContacts(cs);
  }

  /** A store opened on the file of another one has its list. */
  lemma {:induction false} ReopenedContacts(cs: seq<Contact>)
    ensures forall i :: 0 <= i < |cs| ==> IsContact(EncodeContacts(cs)[i])
    ensures DecodeContacts(EncodeContacts(cs)) == cs
    decreases |cs|
  {
    if cs != [] {
      ReopenedContacts(cs[1..]);
      var es := EncodeContacts(cs);
      assert es[1..] == EncodeContacts(cs[1..]);
      assert forall i :: 0 < i < |es| ==> es[i] == es[1..][i - 1];
    }
  }

  /** The file reads back as the list in memory with its surrogate pairs joined. */
  ghost predicate WrittenThrough(f: File, cs: seq<Contact>) {
    LoadList(f) == EncodeContacts(JoinContacts(cs))
  }

  /** A store restarted on the file of another one resumes with that list. */
  lemma ContactsResume(f: File, cs: seq<Contact>)
    requires WrittenThrough(f, cs)
    ensures OwnFile(f) && DecodeContacts(LoadList(f)) == JoinContacts(cs)
  {
    ReopenedContacts(JoinContacts(cs));
  }

  /** Whatever a file holds, contacts loaded from it have no pair to join. */
  lemma LoadedClean(f: File)
    requires OwnFile(f)
    ensures CleanContacts(DecodeContacts(LoadList(f)))
    ensures WrittenThrough(f, DecodeContacts(LoadList(f)))
  {
    if f.Holds? {
      ParseClean(f.text);
    }
    EncodeContactsParts(DecodeContacts(LoadList(f)));
    JoinContactsExact(DecodeContacts(LoadList(f)));
  }

  // -------------------------------------------------------------- the store

  class ContactStore {
    var contacts: seq<Contact>
    var file: File

    ghost predicate Valid()
      reads this
    {
      WrittenThrough(file, contacts)
    }

    constructor (file: File)
      requires OwnFile(file)
      ensures this.file == file && contacts == DecodeContacts(LoadList(file))
      ensures Valid() && CleanContacts(contacts)
    {
      this.file := file;
      contacts := DecodeContacts(LoadList(file));
      LoadedClean(file);
    }

    method Save()
      modifies this`file
      ensures file == SaveList(EncodeContacts(contacts))
      ensures Valid()
    {
      file := SaveList(EncodeContacts(contacts));
      ContactsRecover(contacts);
    }

    method FindContact(url: Str) returns (i: nat)
      ensures i == Find(contacts, url)
    {
      i := 0;
      while i < |contacts|
        invariant i <= |contacts|
        invariant Find(contacts, url) == i + Find(contacts[i..], url)
      {
        if contacts[i].url == url {
          return;
        }
        i := i + 1;
      }
    }

    method GetContact(url: Str) returns (c: Option<Contact>)
      ensures c == if IsKnown(contacts, url) then Some(contacts[Find(contacts, url)]) else None
    {
      var i := FindContact(url);
      c := if i < |contacts| then Some(contacts[i]) else None;
    }

    method AddContact(url: Str, name: Str, tier: Str, now: Str)
      modifies this
      ensures contacts == WithContact(old(contacts), url, name, tier, now)
      ensures Valid()
    {
      contacts := contacts + [Contact(url, name, tier, now, now)];
      Save();
    }

    method UpdateTier(url: Str, tier: Str)
      requires Valid()
      modifies this
      ensures contacts == WithTier(old(contacts), url, tier)
      ensures Valid()
      ensures !IsKnown(old(contacts), url) ==> file == old(file)
    {
      var i := FindContact(url);
      if i == |contacts| {
        return;
      }
      contacts := contacts[i := contacts[i].(tier := tier)];
      Save();
    }

    method RemoveContact(url: Str)
      requires Valid()
      modifies this
      ensures contacts == Without(old(contacts), url)
      ensures Valid()
      ensures !IsKnown(old(contacts), url) ==> file == old(file)
    {
      var i := FindContact(url);
      if i == |contacts| {
        return;
      }
      contacts := RemoveEqual(contacts, contacts[i]);
      Save();
    }

    method UpdateLastSeen(url: Str, now: Str)
      requires Valid()
      modifies this
      ensures contacts == WithLastSeen(old(contacts), url, now)
      ensures Valid()
      ensures !IsKnown(old(contacts), url) ==> file == old(file)
    {
      var i := FindContact(url);
      if i == |contacts| {
        return;
      }
      contacts := contacts[i := contacts[i].(lastSeen := now)];
      Save();
    }
  }

  // --------------------------------------- the list as a map from URL to entry

  /** URL to its oldest entry. */
  function Oldest(cs: seq<Contact>): map<Str, Contact> {
    if cs == [] then map[] else Oldest(cs[1..])[cs[0].url := cs[0]]
  }

  lemma {:induction false} OldestIsFound(cs: seq<Contact>, url: Str)
    ensures url in Oldest(cs) <==> IsKnown(cs, url)
    ensures IsKnown(cs, url) ==> Oldest(cs)[url] == cs[Find(cs, url)]
    decreases |cs|
  {
    if cs != [] {
      OldestIsFound(cs[1..], url);
    }
  }

  /** Adding: a URL already known keeps its entry, a new one gets the new entry. */
  lemma {:induction false} AddRefinesMap(cs: seq<Contact>, url: Str, name: Str, tier: Str, now: Str)
    ensures Oldest(WithContact(cs, url, name, tier, now)) ==
            if url in Oldest(cs) then Oldest(cs) else Oldest(cs)[url := Contact(url, name, tier, now, now)]
    decreases |cs|
  {
    var cs' := WithContact(cs, url, name, tier, now);
    if cs == [] {
      assert cs'[1..] == [];
    } else {
      AddRefinesMap(cs[1..], url, name, tier, now);
      assert cs'[1..] == WithContact(cs[1..], url, name, tier, now);
      assert cs'[0] == cs[0];
    }
  }

  lemma {:induction false} ReplaceFound(cs: seq<Contact>, i: nat, c: Contact)
    requires i < |cs| && i == Find(cs, cs[i].url) && c.url == cs[i].url
    ensures Oldest(cs[i := c]) == Oldest(cs)[c.url := c]
    decreases |cs|
  {
    if i == 0 {
      assert cs[0 := c][1..] == cs[1..];
    } else {
      assert Find(cs, cs[i].url) == 1 + Find(cs[1..], cs[i].url);
      ReplaceFound(cs[1..], i - 1, c);
      assert cs[i := c][1..] == cs[1..][i - 1 := c];
    }
  }

  /** Changing a tier updates that URL's entry and no other. */
  lemma TierRefinesMap(cs: seq<Contact>, url: Str, tier: Str)
    ensures Oldest(WithTier(cs, url, tier)) ==
            if url in Oldest(cs) then Oldest(cs)[url := Oldest(cs)[url].(tier := tier)] else Oldest(cs)
  {
    OldestIsFound(cs, url);
    var i := Find(cs, url);
    if i < |cs| {
      ReplaceFound(cs, i, cs[i].(tier := tier));
    }
  }

  /** Both updates touch the oldest contact of the URL, in their own field, and no
      other; an unknown URL changes nothing. */
  lemma UpdatesTouchOldest(cs: seq<Contact>, url: Str, tier: Str, now: Str)
    ensures forall i :: 0 <= i < |cs| && cs[i].url == url && (forall j :: 0 <= j < i ==> cs[j].url != url) ==>
              var Contact(u, n, t, first, last) := cs[i];
              && WithTier(cs, url, tier) == cs[..i] + [Contact(u, n, tier, first, last)] + cs[i + 1..]
              && WithLastSeen(cs, url, now) == cs[..i] + [Contact(u, n, t, first, now)] + cs[i + 1..]
    ensures (forall i :: 0 <= i < |cs| ==> cs[i].url != url) ==>
              WithTier(cs, url, tier) == cs && WithLastSeen(cs, url, now) == cs
  {
    forall i | 0 <= i < |cs| && cs[i].url == url && forall j :: 0 <= j < i ==> cs[j].url != url
      ensures Find(cs, url) == i
    {
    }
  }

  lemma DropTail<T>(s: seq<T>, i: nat)
    requires 0 < i < |s|
    ensures s[..i] + s[i + 1..] == [s[0]] + (s[1..][..i - 1] + s[1..][i..])
  {
  }

  lemma {:induction false} RemoveEqualAt(cs: seq<Contact>, i: nat)
    requires i < |cs| && i == Find(cs, cs[i].url)
    ensures RemoveEqual(cs, cs[i]) == cs[..i] + cs[i + 1..]
    decreases |cs|
  {
    if i > 0 {
      assert cs[0].url != cs[i].url;
      assert Find(cs, cs[i].url) == 1 + Find(cs[1..], cs[i].url);
      RemoveEqualAt(cs[1..], i - 1);
      assert cs[1..][i - 1] == cs[i];
      assert RemoveEqual(cs, cs[i]) == [cs[0]] + RemoveEqual(cs[1..], cs[i]);
      DropTail(cs, i);
    }
  }

  /** All entries of one URL, oldest first. */
  function EntriesFor(cs: seq<Contact>, url: Str): seq<Contact> {
    if cs == [] then []
    else (if cs[0].url == url then [cs[0]] else []) + EntriesFor(cs[1..], url)
  }

  lemma Regroup<T>(a: seq<T>, b: seq<T>, c: seq<T>)
    ensures (a + b) + c == a + (b + c)
  {
  }

  lemma {:induction false} EntriesForAppend(a: seq<Contact>, b: seq<Contact>, url: Str)
    ensures EntriesFor(a + b, url) == EntriesFor(a, url) + EntriesFor(b, url)
    decreases |a|
  {
    if a == [] {
      assert a + b == b;
    } else {
      EntriesForAppend(a[1..], b, url);
      assert (a + b)[1..] == a[1..] + b && (a + b)[0] == a[0];
      Regroup(if a[0].url == url then [a[0]] else [], EntriesFor(a[1..], url), EntriesFor(b, url));
    }
  }

  lemma {:induction false} EntriesForOldest(cs: seq<Contact>, url: Str)
    ensures EntriesFor(cs, url) == [] <==> !IsKnown(cs, url)
    ensures IsKnown(cs, url) ==> EntriesFor(cs, url)[0] == cs[Find(cs, url)]
    decreases |cs|
  {
    if cs != [] {
      EntriesForOldest(cs[1..], url);
    }
  }

  lemma EntriesForSplit(cs: seq<Contact>, i: nat, url: Str)
    requires i < |cs|
    ensures EntriesFor(cs, url) ==
            EntriesFor(cs[..i], url) + (if cs[i].url == url then [cs[i]] else []) + EntriesFor(cs[i + 1..], url)
    ensures EntriesFor(cs[..i] + cs[i + 1..], url) == EntriesFor(cs[..i], url) + EntriesFor(cs[i + 1..], url)
  {
    var tail := [cs[i]] + cs[i + 1..];
    assert cs == cs[..i] + tail && tail[1..] == cs[i + 1..];
    EntriesForAppend(cs[..i], tail, url);
    EntriesForAppend(cs[..i], cs[i + 1..], url);
  }

  /** remove_contact takes out exactly the entry that a lookup finds: the URL is
      left with its younger entries, if any. */
  lemma RemoveTakesTheFoundEntry(cs: seq<Contact>, url: Str)
    requires IsKnown(cs, url)
    ensures Without(cs, url) == cs[..Find(cs, url)] + cs[Find(cs, url) + 1..]
    ensures EntriesFor(cs, url) == [cs[Find(cs, url)]] + EntriesFor(Without(cs, url), url)
  {
    var i := Find(cs, url);
    RemoveEqualAt(cs, i);
    NoEntriesBefore(cs, url, i);
    EntriesForSplit(cs, i, url);
  }

  /** Every other URL keeps all of its entries, and so its effective tier. */
  lemma RemoveKeepsOthers(cs: seq<Contact>, url: Str, other: Str)
    requires other != url
    ensures EntriesFor(Without(cs, url), other) == EntriesFor(cs, other)
    ensures EffectiveTier(Without(cs, url), other) == EffectiveTier(cs, other)
  {
    var i := Find(cs, url);
    if i < |cs| {
      RemoveEqualAt(cs, i);
      EntriesForSplit(cs, i, other);
    }
    EntriesForOldest(cs, other);
    EntriesForOldest(Without(cs, url), other);
  }

  lemma {:induction false} NoEntriesBefore(cs: seq<Contact>, url: Str, n: nat)
    requires n <= Find(cs, url)
    ensures EntriesFor(cs[..n], url) == []
    decreases n
  {
    if n > 0 {
      assert Find(cs, url) == 1 + Find(cs[1..], url);
      NoEntriesBefore(cs[1..], url, n - 1);
      assert cs[..n][1..] == cs[1..][..n - 1];
    }
  }

  /** Approving or adding a known URL never changes any effective tier; adding an
      unknown one gives it the new tier; only a tier change does otherwise, and
      only for its own URL. */
  lemma TierChanges(cs: seq<Contact>, url: Str, name: Str, tier: Str, now: Str, other: Str)
    ensures EffectiveTier(WithContact(cs, url, name, tier, now), other) ==
            if other == url && !IsKnown(cs, url) then Some(tier) else EffectiveTier(cs, other)
    ensures EffectiveTier(WithTier(cs, url, tier), other) ==
            if other == url && IsKnown(cs, url) then Some(tier) else EffectiveTier(cs, other)
  {
    AddRefinesMap(cs, url, name, tier, now);
    TierRefinesMap(cs, url, tier);
    OldestIsFound(cs, url);
    OldestIsFound(cs, other);
    OldestIsFound(WithContact(cs, url, name, tier, now), other);
    OldestIsFound(WithTier(cs, url, tier), other);
  }
}
