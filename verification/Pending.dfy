/** PendingQueue: messages and approval requests waiting for the user, two lists
    written through to two files. */
module Pending {
  import opened Options
  import opened Json
  import opened JsonRoundTrip
  import opened JsonExact
  import opened Files

  type TaskId = Str

  datatype EntryStatus = Pending | Responded | Dismissed | Deferred | Approved | Blocked

  /** One queue entry; `escalated` is a field of message entries only. */
  datatype Entry = Entry(
    taskId: TaskId, senderUrl: Str, senderName: Str, message: Value, receivedAt: Str,
    status: EntryStatus, escalated: Option<bool>)

  function NewMessage(id: TaskId, url: Str, name: Str, message: Value, now: Str, escalated: bool): Entry {
    Entry(id, url, name, message, now, Pending, Some(escalated))
  }

  function NewApproval(id: TaskId, url: Str, name: Str, message: Value, now: Str): Entry {
    Entry(id, url, name, message, now, Pending, None)
  }

  /** Index of the first entry for this task, or the length. */
  function IndexOf(es: seq<Entry>, id: TaskId): (i: nat)
    ensures i <= |es|
    ensures forall j :: 0 <= j < i ==> es[j].taskId != id
    ensures i < |es| ==> es[i].taskId == id
  {
    FirstIndex(es, (e: Entry) => e.taskId == id)
  }

  function Lookup(es: seq<Entry>, id: TaskId): Option<Entry> {
    var i := IndexOf(es, id);
    if i < |es| then Some(es[i]) else None
  }

  function WithStatus(es: seq<Entry>, id: TaskId, status: EntryStatus): seq<Entry> {
    var i := IndexOf(es, id);
    if i < |es| then es[i := es[i].(status := status)] else es
  }

  function PendingOf(es: seq<Entry>): seq<Entry> {
    if es == [] then []
    else (if es[0].status == Pending then [es[0]] else []) + PendingOf(es[1..])
  }

  // ------------------------------------------------------------------ files

  function StatusText(s: EntryStatus): Str {
    match s
    case Pending => Lit("pending")
    case Responded => Lit("responded")
    case Dismissed => Lit("dismissed")
    case Deferred => Lit("deferred")
    case Approved => Lit("approved")
    case Blocked => Lit("blocked")
  }

  function EncodeEntry(e: Entry): Value {
    var common := [
      Field(Lit("task_id"), Text(e.taskId)), Field(Lit("sender_url"), Text(e.senderUrl)),
      Field(Lit("sender_name"), Text(e.senderName)), Field(Lit("message"), e.message),
      Field(Lit("received_at"), Text(e.receivedAt)), Field(Lit("status"), Text(StatusText(e.status)))];
    Obj(if e.escalated.Some? then common + [Field(Lit("escalated"), Bool(e.escalated.value))] else common)
  }

  function EncodeEntries(es: seq<Entry>): (r: seq<Value>)
    ensures |r| == |es|
  {
    if es == [] then [] else [EncodeEntry(es[0])] + EncodeEntries(es[1..])
  }

  function StatusOf(s: Str): Option<EntryStatus> {
    if s == Lit("pending") then Some(Pending)
    else if s == Lit("responded") then Some(Responded)
    else if s == Lit("dismissed") then Some(Dismissed)
    else if s == Lit("deferred") then Some(Deferred)
    else if s == Lit("approved") then Some(Approved)
    else if s == Lit("blocked") then Some(Blocked)
    else None
  }

  predicate IsEntry(v: Value) {
    v.Obj? && 6 <= |v.fields| <= 7 && IsTextField(v.fields[0], "task_id")
    && IsTextField(v.fields[1], "sender_url") && IsTextField(v.fields[2], "sender_name")
    && v.fields[3].key == Lit("message") && IsTextField(v.fields[4], "received_at")
    && IsTextField(v.fields[5], "status") && StatusOf(v.fields[5].value.s).Some?
    && (|v.fields| == 7 ==> v.fields[6].key == Lit("escalated") && v.fields[6].value.Bool?)
  }

  function DecodeEntry(v: Value): (e: Entry)
    requires IsEntry(v)
    ensures EncodeEntry(e) == v
  {
    Entry(v.fields[0].value.s, v.fields[1].value.s, v.fields[2].value.s, v.fields[3].value, v.fields[4].value.s,
          StatusOf(v.fields[5].value.s).value,
          if |v.fields| == 7 then Some(v.fields[6].value.b) else None)
  }

  /** Every item of the file's list has the shape this store writes. */
  predicate OwnFile(f: File) { forall i :: 0 <= i < |LoadList(f)| ==> IsEntry(LoadList(f)[i]) }

  function DecodeEntries(items: seq<Value>): (es: seq<Entry>)
    requires forall i :: 0 <= i < |items| ==> IsEntry(items[i])
    ensures EncodeEntries(es) == items
  {
    if items == [] then [] else [DecodeEntry(items[0])] + DecodeEntries(items[1..])
  }

  /** An entry whose message is a value Python can print. */
  ghost predicate PrintableEntries(es: seq<Entry>) {
    forall i :: 0 <= i < |es| ==> Printable(es[i].message)
  }

  ghost predicate CleanEntry(e: Entry) {
    PairFree(e.taskId) && PairFree(e.senderUrl) && PairFree(e.senderName) && PairFreeTree(e.message)
    && PairFree(e.receivedAt)
  }

  ghost predicate CleanEntries(es: seq<Entry>) {
    forall i :: 0 <= i < |es| ==> CleanEntry(es[i])
  }

  lemma EntryKeys(e: Entry)
    ensures DistinctKeys(EncodeEntry(e).fields)
    ensures forall i :: 0 <= i < |EncodeEntry(e).fields| ==> PairFree(EncodeEntry(e).fields[i].key)
  {
    var fs := EncodeEntry(e).fields;
    assert |fs[0].key| == |fs[3].key| == 7 && |fs[2].key| == |fs[4].key| == 11;
    assert |fs[1].key| == 10 && |fs[5].key| == 6 && (|fs| == 7 ==> |fs[6].key| == 9);
    assert fs[0].key[0] == 't' as int && fs[3].key[0] == 'm' as int;
    assert fs[2].key[0] == 's' as int && fs[4].key[0] == 'r' as int;
  }

  /** The names under which an entry's parts are stored, which other programs read. */
  lemma StoredUnder(e: Entry)
    ensures var v := EncodeEntry(e);
            && Get(v, "task_id") == Some(Text(e.taskId)) && Get(v, "sender_url") == Some(Text(e.senderUrl))
            && Get(v, "sender_name") == Some(Text(e.senderName)) && Get(v, "message") == Some(e.message)
            && Get(v, "received_at") == Some(Text(e.receivedAt))
    ensures Get(EncodeEntry(e), "status") == Some(Text(Lit(match e.status
                                                           case Pending => "pending"
                                                           case Responded => "responded"
                                                           case Dismissed => "dismissed"
                                                           case Deferred => "deferred"
                                                           case Approved => "approved"
                                                           case Blocked => "blocked")))
    ensures Get(EncodeEntry(e), "escalated") == if e.escalated.Some? then Some(Bool(e.escalated.value)) else None
  {
    var fs := EncodeEntry(e).fields;
    EntryKeys(e);
    GetUnique(fs, 0, "task_id");
    GetUnique(fs, 1, "sender_url");
    GetUnique(fs, 2, "sender_name");
    GetUnique(fs, 3, "message");
    GetUnique(fs, 4, "received_at");
    GetUnique(fs, 5, "status");
    EscalatedStored(e);
  }

  lemma EscalatedStored(e: Entry)
    ensures Get(EncodeEntry(e), "escalated") == if e.escalated.Some? then Some(Bool(e.escalated.value)) else None
  {
    var fs := EncodeEntry(e).fields;
    EntryKeys(e);
    assert |fs[0].key| == |fs[3].key| == 7 && |fs[2].key| == |fs[4].key| == 11;
    assert |fs[1].key| == 10 && |fs[5].key| == 6 && |Lit("escalated")| == 9;
    if e.escalated.Some? {
      GetUnique(fs, 6, "escalated");
    }
  }

  lemma StatusPairFree(s: EntryStatus)
    ensures PairFree(StatusText(s))
  {
  }

  /** The values of an entry's dict, in order. */
  lemma EntryFields(e: Entry)
    ensures var fs := EncodeEntry(e).fields;
            && |fs| == (if e.escalated.Some? then 7 else 6)
            && fs[0].value == Text(e.taskId) && fs[1].value == Text(e.senderUrl) && fs[2].value == Text(e.senderName)
            && fs[3].value == e.message && fs[4].value == Text(e.receivedAt)
            && fs[5].value == Text(StatusText(e.status)) && (|fs| == 7 ==> fs[6].value.Bool?)
  {
  }

  lemma ValuesClean(fs: seq<Field>, e: Entry, status: Str)
    requires 6 <= |fs| <= 7 && (|fs| == 7 ==> fs[6].value.Bool?)
    requires fs[0].value == Text(e.taskId) && fs[1].value == Text(e.senderUrl) && fs[2].value == Text(e.senderName)
    requires fs[3].value == e.message && fs[4].value == Text(e.receivedAt) && fs[5].value == Text(status)
    requires Printable(e.message) && PairFree(status)
    ensures forall i :: 0 <= i < |fs| ==> Printable(fs[i].value)
    ensures (forall i :: 0 <= i < |fs| ==> PairFreeTree(fs[i].value)) <==> CleanEntry(e)
  {
  }

  lemma EntryValues(e: Entry)
    requires Printable(e.message)
    ensures var fs := EncodeEntry(e).fields;
            && (forall i :: 0 <= i < |fs| ==> Printable(fs[i].value))
            && ((forall i :: 0 <= i < |fs| ==> PairFreeTree(fs[i].value)) <==> CleanEntry(e))
  {
    StatusPairFree(e.status);
    EntryFields(e);
    ValuesClean(EncodeEntry(e).fields, e, StatusText(e.status));
  }

  lemma EncodeEntryParts(e: Entry)
    requires Printable(e.message)
    ensures Printable(EncodeEntry(e))
    ensures PairFreeTree(EncodeEntry(e)) <==> CleanEntry(e)
  {
    EntryKeys(e);
    EntryValues(e);
    DictParts(EncodeEntry(e).fields);
  }

  lemma {:induction false} EncodeEntriesParts(es: seq<Entry>)
    requires PrintableEntries(es)
    ensures NumbersOkItems(EncodeEntries(es)) && DictsOkItems(EncodeEntries(es))
    ensures PairFreeItems(EncodeEntries(es)) <==> CleanEntries(es)
    decreases |es|
  {
    if es != [] {
      EncodeEntryParts(es[0]);
      assert forall i :: 0 <= i < |es[1..]| ==> es[1..][i] == es[i + 1];
      EncodeEntriesParts(es[1..]);
      assert EncodeEntries(es)[1..] == EncodeEntries(es[1..]);
      assert forall i :: 0 < i < |es| ==> es[i] == es[1..][i - 1];
    }
  }

  /** An entry as it is read back: the surrogate pairs in its texts joined. */
  function JoinEntry(e: Entry): Entry {
    Entry(Join(e.taskId), Join(e.senderUrl), Join(e.senderName), JoinTree(e.message), Join(e.receivedAt), e.status,
          e.escalated)
  }

  function JoinEntries(es: seq<Entry>): (r: seq<Entry>)
    ensures |r| == |es|
    ensures forall i :: 0 <= i < |es| ==> r[i] == JoinEntry(es[i])
  {
    if es == [] then [] else [JoinEntry(es[0])] + JoinEntries(es[1..])
  }

  lemma SameKeys(e: Entry, d: Entry)
    requires e.escalated == d.escalated && e.status == d.status
    ensures var fs, gs := EncodeEntry(e).fields, EncodeEntry(d).fields;
            && |fs| == |gs| && (forall i :: 0 <= i < |fs| ==> fs[i].key == gs[i].key)
            && fs[5] == gs[5] && (|fs| == 7 ==> fs[6] == gs[6])
  {
  }

  lemma JoinedValues(fs: seq<Field>, gs: seq<Field>, e: Entry, status: Str)
    requires 6 <= |fs| == |gs| <= 7 && DistinctKeys(fs) && PairFree(status)
    requires forall i :: 0 <= i < |fs| ==> PairFree(fs[i].key) && fs[i].key == gs[i].key
    requires fs[0].value == Text(e.taskId) && fs[1].value == Text(e.senderUrl) && fs[2].value == Text(e.senderName)
    requires fs[3].value == e.message && fs[4].value == Text(e.receivedAt) && fs[5].value == Text(status)
    requires gs[0].value == Text(Join(e.taskId)) && gs[1].value == Text(Join(e.senderUrl))
    requires gs[2].value == Text(Join(e.senderName)) && gs[3].value == JoinTree(e.message)
    requires gs[4].value == Text(Join(e.receivedAt)) && gs[5].value == Text(status)
    requires |fs| == 7 ==> fs[6].value.Bool? && gs[6].value == fs[6].value
    ensures JoinTree(Obj(fs)) == Obj(gs)
  {
    DictJoined(fs);
    JoinIdentity(status);
    assert JoinFields(fs) == gs;
  }

  lemma JoinedEntry(e: Entry)
    ensures JoinTree(EncodeEntry(e)) == EncodeEntry(JoinEntry(e))
  {
    EntryKeys(e);
    EntryFields(e);
    EntryFields(JoinEntry(e));
    SameKeys(e, JoinEntry(e));
    StatusPairFree(e.status);
    JoinedValues(EncodeEntry(e).fields, EncodeEntry(JoinEntry(e)).fields, e, StatusText(e.status));
  }

  lemma {:induction false} JoinedEntries(es: seq<Entry>)
    ensures JoinItems(EncodeEntries(es)) == EncodeEntries(JoinEntries(es))
    decreases |es|
  {
    if es != [] {
      JoinedEntry(es[0]);
      JoinedEntries(es[1..]);
      assert EncodeEntries(es)[1..] == EncodeEntries(es[1..]);
      assert JoinEntries(es)[1..] == JoinEntries(es[1..]);
    }
  }

  lemma JoinEntryExact(e: Entry)
    requires Printable(e.message)
    ensures JoinEntry(e) == e <==> CleanEntry(e)
    ensures CleanEntry(JoinEntry(e)) && Printable(JoinEntry(e).message)
  {
    JoinIdentity(e.taskId);
    JoinIdentity(e.senderUrl);
    JoinIdentity(e.senderName);
    JoinIdentity(e.receivedAt);
    JoinPairFree(e.taskId);
    JoinPairFree(e.senderUrl);
    JoinPairFree(e.senderName);
    JoinPairFree(e.receivedAt);
    JoinTreeExact(e.message);
  }

  /** The list as it is read back is the list itself exactly when no text of it has
      a surrogate pair to join. */
  lemma JoinEntriesExact(es: seq<Entry>)
    requires PrintableEntries(es)
    ensures JoinEntries(es) == es <==> CleanEntries(es)
    ensures CleanEntries(JoinEntries(es)) && PrintableEntries(JoinEntries(es))
  {
    forall i | 0 <= i < |es|
      ensures (JoinEntry(es[i]) == es[i] <==> CleanEntry(es[i])) && CleanEntry(JoinEntry(es[i]))
              && Printable(JoinEntry(es[i]).message)
    {
      JoinEntryExact(es[i]);
    }
  }

  /** Loading what was written gives the list in memory with its surrogate pairs
      joined, and so the list itself exactly when it has none. */
  lemma EntriesRecover(es: seq<Entry>)
    requires PrintableEntries(es)
    ensures LoadList(SaveList(EncodeEntries(es))) == EncodeEntries(JoinEntries(es))
    ensures LoadList(SaveList(EncodeEntries(es))) == EncodeEntries(es) <==> CleanEntries(es)
  {
    EncodeEntriesParts(es);
    SavedListJoins(EncodeEntries(es));
    SavedListLoads(EncodeEntries(es));
    JoinedEntries(es);
  }

  lemma StatusRoundTrip(s: EntryStatus)
    ensures StatusOf(StatusText(s)) == Some(s)
  {
    var t := StatusText(s);
    assert t[0] == (match s case Pending => 'p' case Responded => 'r' case Dismissed => 'd'
                            case Deferred => 'd' case Approved => 'a' case Blocked => 'b') as int;
    assert s.Dismissed? ==> t[1] == 'i' as int;
    assert s.Deferred? ==> t[1] == 'e' as int;
    assert Lit("dismissed")[1] == 'i' as int;
    assert Lit("pending")[0] == 'p' as int && Lit("responded")[0] == 'r' as int;
    assert Lit("dismissed")[0] == 'd' as int && Lit("approved")[0] == 'a' as int;
    assert Lit("blocked")[0] == 'b' as int && Lit("deferred")[0] == 'd' as int;
  }

  lemma ReopenedEntry(e: Entry)
    ensures IsEntry(EncodeEntry(e)) && DecodeEntry(EncodeEntry(e)) == e
  {
    StatusRoundTrip(e.status);
  }

  /** A queue opened on the file of another one has its list. */
  lemma {:induction false} ReopenedEntries(es: seq<Entry>)
    ensures forall i :: 0 <= i < |es| ==> IsEntry(EncodeEntries(es)[i])
    ensures DecodeEntries(EncodeEntries(es)) == es
    decreases |es|
  {
    if es != [] {
      ReopenedEntry(es[0]);
      ReopenedEntries(es[1..]);
      var vs := EncodeEntries(es);
      assert vs[1..] == EncodeEntries(es[1..]);
      assert forall i :: 0 < i < |vs| ==> vs[i] == vs[1..][i - 1];
    }
  }

  /** The file reads back as the list in memory with its surrogate pairs joined. */
  ghost predicate WrittenThrough(f: File, es: seq<Entry>) {
    LoadList(f) == EncodeEntries(JoinEntries(es))
  }

  /** A queue restarted on the file of another one resumes with that list. */
  lemma QueueResumes(f: File, es: seq<Entry>)
    requires WrittenThrough(f, es)
    ensures OwnFile(f) && DecodeEntries(LoadList(f)) == JoinEntries(es)
  {
    ReopenedEntries(JoinEntries(es));
  }

  // -------------------------------------------------------------- the queue

  class PendingQueue {
    var messages: seq<Entry>
    var approvals: seq<Entry>
    var messagesFile: File
    var approvalsFile: File

    /** Each file reads back as its list in memory, with the surrogate pairs joined
        that JSON cannot carry. */
    ghost predicate Valid()
      reads this
    {
      && PrintableEntries(messages) && WrittenThrough(messagesFile, messages)
      && PrintableEntries(approvals) && WrittenThrough(approvalsFile, approvals)
    }

    constructor (messagesFile: File, approvalsFile: File)
      requires OwnFile(messagesFile) && OwnFile(approvalsFile)
      ensures this.messagesFile == messagesFile && this.approvalsFile == approvalsFile
      ensures messages == DecodeEntries(LoadList(messagesFile))
      ensures approvals == DecodeEntries(LoadList(approvalsFile))
      ensures Valid() && CleanEntries(messages) && CleanEntries(approvals)
    {
      this.messagesFile, this.approvalsFile := messagesFile, approvalsFile;
      messages := DecodeEntries(LoadList(messagesFile));
      approvals := DecodeEntries(LoadList(approvalsFile));
      LoadedClean(messagesFile);
      LoadedClean(approvalsFile);
    }

    method SaveMessages()
      requires PrintableEntries(messages)
      modifies this`messagesFile
      ensures messagesFile == SaveList(EncodeEntries(messages))
      ensures WrittenThrough(messagesFile, messages)
    {
      messagesFile := SaveList(EncodeEntries(messages));
      EntriesRecover(messages);
    }

    method SaveApprovals()
      requires PrintableEntries(approvals)
      modifies this`approvalsFile
      ensures approvalsFile == SaveList(EncodeEntries(approvals))
      ensures WrittenThrough(approvalsFile, approvals)
    {
      approvalsFile := SaveList(EncodeEntries(approvals));
      EntriesRecover(approvals);
    }

    method AddMessage(id: TaskId, url: Str, name: Str, message: Value, now: Str, escalated: bool)
      requires Valid() && Printable(message)
      modifies this`messages, this`messagesFile
      ensures messages == old(messages) + [NewMessage(id, url, name, message, now, escalated)]
      ensures Valid()
    {
      messages := messages + [Entry(id, url, name, message, now, Pending, Some(escalated))];
      SaveMessages();
    }

    method GetPendingMessages() returns (es: seq<Entry>)
      ensures es == PendingOf(messages)
    {
      es := CollectPending(messages);
    }

    method GetMessage(id: TaskId) returns (e: Option<Entry>)
      ensures e == Lookup(messages, id)
    {
      var i := FindEntry(messages, id);
      e := if i < |messages| then Some(messages[i]) else None;
    }

    method UpdateMessageStatus(id: TaskId, status: EntryStatus)
      requires Valid()
      modifies this`messages, this`messagesFile
      ensures messages == WithStatus(old(messages), id, status)
      ensures Valid()
      ensures Lookup(old(messages), id).None? ==> messagesFile == old(messagesFile)
    {
      var i := FindEntry(messages, id);
      if i < |messages| {
        messages := messages[i := messages[i].(status := status)];
        SaveMessages();
      }
    }

    method AddApproval(id: TaskId, url: Str, name: Str, message: Value, now: Str)
      requires Valid() && Printable(message)
      modifies this`approvals, this`approvalsFile
      ensures approvals == old(approvals) + [NewApproval(id, url, name, message, now)]
      ensures Valid()
    {
      approvals := approvals + [Entry(id, url, name, message, now, Pending, None)];
      SaveApprovals();
    }

    method GetPendingApprovals() returns (es: seq<Entry>)
      ensures es == PendingOf(approvals)
    {
      es := CollectPending(approvals);
    }

    method GetApproval(id: TaskId) returns (e: Option<Entry>)
      ensures e == Lookup(approvals, id)
    {
      var i := FindEntry(approvals, id);
      e := if i < |approvals| then Some(approvals[i]) else None;
    }

    method UpdateApprovalStatus(id: TaskId, status: EntryStatus)
      requires Valid()
      modifies this`approvals, this`approvalsFile
      ensures approvals == WithStatus(old(approvals), id, status)
      ensures Valid()
      ensures Lookup(old(approvals), id).None? ==> approvalsFile == old(approvalsFile)
    {
      var i := FindEntry(approvals, id);
      if i < |approvals| {
        approvals := approvals[i := approvals[i].(status := status)];
        SaveApprovals();
      }
    }
  }

  /** Whatever a file holds, a list loaded from it can be printed and has no pair
      to join. */
  lemma LoadedClean(f: File)
    requires OwnFile(f)
    ensures PrintableEntries(DecodeEntries(LoadList(f))) && CleanEntries(DecodeEntries(LoadList(f)))
    ensures WrittenThrough(f, DecodeEntries(LoadList(f)))
  {
    if f.Holds? {
      ParseClean(f.text);
    }
    EncodedPrintable(DecodeEntries(LoadList(f)));
    EncodeEntriesParts(DecodeEntries(LoadList(f)));
    JoinEntriesExact(DecodeEntries(LoadList(f)));
  }

  lemma {:induction false} EncodedPrintable(es: seq<Entry>)
    requires NumbersOkItems(EncodeEntries(es)) && DictsOkItems(EncodeEntries(es))
    ensures PrintableEntries(es)
    decreases |es|
  {
    if es != [] {
      var fs := EncodeEntry(es[0]).fields;
      PrintableFields(fs);
      assert Printable(fs[3].value);
      assert EncodeEntries(es)[1..] == EncodeEntries(es[1..]);
      EncodedPrintable(es[1..]);
      assert forall i :: 0 < i < |es| ==> es[i] == es[1..][i - 1];
    }
  }

  method CollectPending(entries: seq<Entry>) returns (es: seq<Entry>)
    ensures es == PendingOf(entries)
  {
    es := [];
    for i := 0 to |entries|
      invariant es + PendingOf(entries[i..]) == PendingOf(entries)
    {
      if entries[i].status == Pending {
        es := es + [entries[i]];
      }
    }
  }

  method FindEntry(entries: seq<Entry>, id: TaskId) returns (i: nat)
    ensures i == IndexOf(entries, id)
  {
    i := 0;
    while i < |entries|
      invariant i <= |entries|
      invariant IndexOf(entries, id) == i + IndexOf(entries[i..], id)
    {
      if entries[i].taskId == id {
        return;
      }
      i := i + 1;
    }
  }
}
