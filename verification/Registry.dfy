/** The capability registry (capability/registry/registry.go): batches of registrations, the name
    indexes kept beside the entries, restriction, and lookup by id, name, bare name or alias. */
module Registry {
  import opened Options
  import opened Text
  import opened Selectors

  // ----- entries -----

  datatype Entry = Entry(descriptor: Descriptor, bareName: string, tool: Option<string>)

  type Entries = map<string, Entry>

  /** The last part of an id, without its "cap." prefix if anything follows that. */
  function BareName(id: string): string {
    var bare := id[LastColon(id) + 1..];
    if "cap." < bare then bare[4..] else bare
  }

  /** An id "<ns>:cap.<name>" has the bare name "<name>". */
  lemma BareNameOfCapability(ns: string, name: string)
    requires name != "" && ColonFree(name)
    ensures BareName(ns + ":cap." + name) == name
  {
    var id := ns + ":cap." + name;
    assert id[|ns|] == ':';
    assert forall i :: |ns| < i < |id| ==> id[i] == ("cap." + name)[i - |ns| - 1];
    assert LastColon(id) == |ns|;
    assert id[|ns| + 1..] == "cap." + name;
  }

  /** Any other id "<ns>:<name>" has the bare name "<name>". */
  lemma BareNameOfOther(ns: string, name: string)
    requires ColonFree(name) && !("cap." < name)
    ensures BareName(ns + ":" + name) == name
  {
    var id := ns + ":" + name;
    assert id[|ns|] == ':';
    assert forall i :: |ns| < i < |id| ==> id[i] == name[i - |ns| - 1];
    assert LastColon(id) == |ns|;
    assert id[|ns| + 1..] == name;
  }

  // ----- what is registered -----

  datatype Admission = Admitted | Refused | Fails

  /** A registration. Legacy tools describe themselves, perhaps in part; handlers may be
      invocable (or else serve prompts and resources); a plain descriptor has no handler. */
  datatype Item =
    | LegacyTool(name: string, capabilityID: string, provided: Descriptor, admission: Admission)
    | Handler(descriptor: Descriptor, coordinationOk: bool, invocable: bool)
    | Plain(descriptor: Descriptor, coordinationOk: bool)

  function DescriptorOf(item: Item): Descriptor {
    if item.LegacyTool? then
      var id := if item.provided.id != "" then item.provided.id
                else if Trim(item.capabilityID) != "" then Trim(item.capabilityID)
                else "tool:" + Trim(item.name);
      item.provided.(id := id, name := if item.provided.name == "" then item.name else item.provided.name)
    else item.descriptor
  }

  function EntryOf(item: Item): Entry {
    var d := DescriptorOf(item);
    match item
    case LegacyTool(name, _, _, _) => Entry(d, BareName(d.id), Some(name))
    case Handler(_, _, invocable) => Entry(d, if invocable then BareName(d.id) else "", None)
    case Plain(_, _) => Entry(d, "", None)
  }

  /** Only tools and invocable handlers have a bare name, and only tools a tool name. */
  lemma EntryNames(item: Item)
    ensures EntryOf(item).descriptor == DescriptorOf(item)
    ensures EntryOf(item).tool == if item.LegacyTool? then Some(item.name) else None
    ensures EntryOf(item).bareName ==
            if item.LegacyTool? || (item.Handler? && item.invocable) then BareName(DescriptorOf(item).id) else ""
  {}

  /** A tool is known by the id it provides, else by its capability id, else by its name. */
  lemma ToolIdentity(item: Item)
    requires item.LegacyTool?
    ensures item.provided.id != "" ==> DescriptorOf(item).id == item.provided.id
    ensures item.provided.id == "" && !Blank(item.capabilityID) ==> DescriptorOf(item).id == Trim(item.capabilityID)
    ensures item.provided.id == "" && Blank(item.capabilityID) ==> DescriptorOf(item).id == "tool:" + Trim(item.name)
    ensures DescriptorOf(item).name == if item.provided.name != "" then item.provided.name else item.name
  {
    TrimProperties(item.capabilityID);
  }

  predicate Admits(allowed: seq<Compiled>, d: Descriptor) {
    allowed == [] || exists i :: 0 <= i < |allowed| && CompiledMatches(allowed[i], ProfileOf(d))
  }

  // ----- registration, decided by scanning the entries -----

  /** Some registered tool has this name. */
  predicate ToolTaken(entries: Entries, name: string) {
    Normalize(name) != "" && exists id :: id in entries && HasTool(entries[id], Normalize(name))
  }

  predicate HasTool(e: Entry, key: string) {
    e.tool.Some? && Normalize(e.tool.value) == key
  }

  /** The entry is found under this key. */
  predicate Answers(e: Entry, key: string) {
    key != "" && (Normalize(e.descriptor.name) == key || e.bareName == key)
  }

  predicate Answered(entries: Entries, key: string) {
    exists id :: id in entries && Answers(entries[id], key)
  }

  datatype Verdict = Rejected | Skipped | Ready

  datatype Batch = Batch(entries: Entries, seenIDs: set<string>, seenTools: set<string>)

  predicate Duplicate(b: Batch, item: Item) {
    || (item.LegacyTool? && (ToolTaken(b.entries, item.name) || Normalize(item.name) in b.seenTools))
    || DescriptorOf(item).id in b.entries || DescriptorOf(item).id in b.seenIDs
  }

  predicate WellFormed(item: Item) {
    match item
    case LegacyTool(_, _, provided, _) => provided.runtimeFamily == "local-tool"
    case _ => item.descriptor.id != "" && item.coordinationOk
  }

  function Judge(b: Batch, admitted: bool, item: Item): Verdict {
    if item.LegacyTool? && item.admission == Fails then Rejected
    else if item.LegacyTool? && item.admission == Refused then Skipped
    else if !WellFormed(item) || Duplicate(b, item) then Rejected
    else if !admitted then Skipped
    else if Answered(b.entries, EntryOf(item).bareName) then Rejected
    else Ready
  }

  /** The names an item claims for the rest of its batch. */
  function Noted(b: Batch, item: Item): Batch {
    if item.LegacyTool? && item.admission != Admitted then b
    else b.(seenIDs := b.seenIDs + {DescriptorOf(item).id},
            seenTools := if item.LegacyTool? then b.seenTools + {Normalize(item.name)} else b.seenTools)
  }

  /** The batch after its first item, if that was not rejected. */
  function Next(b: Batch, allowed: seq<Compiled>, item: Item): Batch {
    if Judge(b, Admits(allowed, DescriptorOf(item)), item) == Ready
    then Noted(b, item).(entries := b.entries[EntryOf(item).descriptor.id := EntryOf(item)])
    else Noted(b, item)
  }

  /** A batch stops at its first rejected item and keeps what came before. */
  function Run(b: Batch, allowed: seq<Compiled>, items: seq<Item>): (Entries, bool)
    decreases |items|
  {
    if items == [] then (b.entries, true)
    else if Judge(b, Admits(allowed, DescriptorOf(items[0])), items[0]) == Rejected then (b.entries, false)
    else Run(Next(b, allowed, items[0]), allowed, items[1..])
  }

  predicate RegisteredFrom(e: Entry, allowed: seq<Compiled>, item: Item) {
    e == EntryOf(item) && Admits(allowed, e.descriptor)
  }

  /** Registration never replaces or removes an entry. */
  lemma {:induction false} RunKeeps(b: Batch, allowed: seq<Compiled>, items: seq<Item>, id: string)
    requires id in b.entries
    ensures id in Run(b, allowed, items).0 && Run(b, allowed, items).0[id] == b.entries[id]
    decreases |items|
  {
    if items != [] && Judge(b, Admits(allowed, DescriptorOf(items[0])), items[0]) != Rejected {
      RunKeeps(Next(b, allowed, items[0]), allowed, items[1..], id);
    }
  }

  /** Every new entry is that of some item the allowlist admits. */
  lemma {:induction false} RunAddsAdmitted(b: Batch, allowed: seq<Compiled>, items: seq<Item>, id: string)
    returns (i: nat)
    requires id in Run(b, allowed, items).0 && id !in b.entries
    ensures i < |items| && id == DescriptorOf(items[i]).id
    ensures RegisteredFrom(Run(b, allowed, items).0[id], allowed, items[i])
    decreases |items|
  {
    var c := Next(b, allowed, items[0]);
    if id in c.entries {
      RunKeeps(c, allowed, items[1..], id);
      i := 0;
    } else {
      var j := RunAddsAdmitted(c, allowed, items[1..], id);
      i := j + 1;
    }
  }

  /** What a failed batch leaves behind is exactly what its longest accepted beginning would. */
  lemma {:induction false} FailedBatchKeepsBeginning(b: Batch, allowed: seq<Compiled>, items: seq<Item>)
    returns (k: nat)
    requires !Run(b, allowed, items).1
    ensures k < |items| && Run(b, allowed, items[..k]) == (Run(b, allowed, items).0, true)
    ensures !Run(b, allowed, items[..k + 1]).1
    decreases |items|
  {
    if Judge(b, Admits(allowed, DescriptorOf(items[0])), items[0]) == Rejected {
      k := 0;
    } else {
      var c := Next(b, allowed, items[0]);
      var j := FailedBatchKeepsBeginning(c, allowed, items[1..]);
      k := j + 1;
      assert items[..k][0] == items[0] && items[..k][1..] == items[1..][..j];
      assert items[..k + 1][0] == items[0] && items[..k + 1][1..] == items[1..][..j + 1];
    }
  }

  // ----- a batch by its items alone -----

  /** The registry looks at the item: admission has not turned it away. */
  predicate Considered(item: Item) {
    item.LegacyTool? ==> item.admission == Admitted
  }

  /** Considered, and on the allowlist. */
  predicate Wanted(allowed: seq<Compiled>, item: Item) {
    Considered(item) && Admits(allowed, DescriptorOf(item))
  }

  /** One of the first k items has claimed the id, the tool name, the lookup key. */
  predicate IDClaimed(items: seq<Item>, k: nat, id: string)
    requires k <= |items|
  {
    exists j :: 0 <= j < k && ClaimsID(items[j], id)
  }

  predicate ClaimsID(item: Item, id: string) {
    Considered(item) && DescriptorOf(item).id == id
  }

  predicate ToolClaimed(items: seq<Item>, k: nat, key: string)
    requires k <= |items|
  {
    exists j :: 0 <= j < k && ClaimsTool(items[j], key)
  }

  predicate ClaimsTool(item: Item, key: string) {
    Considered(item) && item.LegacyTool? && Normalize(item.name) == key
  }

  predicate KeyClaimed(allowed: seq<Compiled>, items: seq<Item>, k: nat, key: string)
    requires k <= |items|
  {
    exists j :: 0 <= j < k && Wanted(allowed, items[j]) && Answers(EntryOf(items[j]), key)
  }

  /** What is wrong with an item in itself. */
  predicate Malformed(item: Item) {
    if item.LegacyTool? then item.provided.runtimeFamily != "local-tool"
    else item.descriptor.id == "" || !item.coordinationOk
  }

  /** What fails a batch at its k-th item: a failing admission, a malformed item, an id or tool name
      that is already taken, or, if the item is wanted, a bare name that somebody answers to. An
      item that is merely not on the allowlist, or that admission turns away, fails nothing. */
  predicate Faulty(entries: Entries, allowed: seq<Compiled>, items: seq<Item>, k: nat)
    requires k < |items|
  {
    var item := items[k];
    var id, bare := DescriptorOf(item).id, EntryOf(item).bareName;
    || (item.LegacyTool? && item.admission == Fails)
    || (Considered(item) &&
        (|| Malformed(item)
         || id in entries || IDClaimed(items, k, id)
         || (item.LegacyTool? && (ToolTaken(entries, item.name) || ToolClaimed(items, k, Normalize(item.name))))
         || (Admits(allowed, DescriptorOf(item)) && (Answered(entries, bare) || KeyClaimed(allowed, items, k, bare)))))
  }

  /** The entry an item is to get, if it is wanted. */
  function Wish(allowed: seq<Compiled>, item: Item): Option<Entry> {
    if Wanted(allowed, item) then Some(EntryOf(item)) else None
  }

  function Wishes(allowed: seq<Compiled>, items: seq<Item>, k: nat): (r: seq<Option<Entry>>)
    requires k <= |items|
    ensures |r| == k && forall j :: 0 <= j < k ==> r[j] == Wish(allowed, items[j])
  {
    seq(k, j requires 0 <= j < k => Wish(allowed, items[j]))
  }

  predicate WishedFor(w: Option<Entry>, id: string) {
    w.Some? && w.value.descriptor.id == id
  }

  /** The entries with exactly the wished ones added. */
  ghost predicate Extended(entries: Entries, wishes: seq<Option<Entry>>, after: Entries) {
    && (forall id :: id in entries ==> id in after && after[id] == entries[id])
    && (forall j :: 0 <= j < |wishes| && wishes[j].Some? ==> Registered(after, wishes[j].value))
    && forall id :: id in after && id !in entries ==> exists j :: 0 <= j < |wishes| && WishedFor(wishes[j], id)
  }

  predicate Registered(entries: Entries, e: Entry) {
    e.descriptor.id in entries && entries[e.descriptor.id] == e
  }

  function Put(entries: Entries, w: Option<Entry>): Entries {
    if w.Some? then entries[w.value.descriptor.id := w.value] else entries
  }

  lemma ExtendedAppend(entries: Entries, wishes: seq<Option<Entry>>, w: Option<Entry>, b: Entries)
    requires Extended(entries, wishes, b) && (w.Some? ==> w.value.descriptor.id !in b)
    ensures Extended(entries, wishes + [w], Put(b, w))
  {
    var all, after := wishes + [w], Put(b, w);
    forall j | 0 <= j < |all| && all[j].Some? ensures Registered(after, all[j].value) {
      if j < |wishes| { assert wishes[j] == all[j] && Registered(b, wishes[j].value); }
    }
    forall id | id in after && id !in entries ensures exists j :: 0 <= j < |all| && WishedFor(all[j], id) {
      if id in b {
        var j :| 0 <= j < |wishes| && WishedFor(wishes[j], id);
        assert WishedFor(all[j], id);
      } else {
        assert WishedFor(all[|wishes|], id);
      }
    }
  }

  /** A batch stops at its first faulty item, and the wanted items before it are registered. */
  ghost predicate BatchOutcome(entries: Entries, allowed: seq<Compiled>, items: seq<Item>, after: Entries, ok: bool) {
    exists n :: 0 <= n <= |items| && StopsAt(entries, allowed, items, n) && ok == (n == |items|)
                && Extended(entries, Wishes(allowed, items, n), after)
  }

  ghost predicate StopsAt(entries: Entries, allowed: seq<Compiled>, items: seq<Item>, n: nat)
    requires n <= |items|
  {
    && (forall j :: 0 <= j < n ==> !Faulty(entries, allowed, items, j))
    && (n < |items| ==> Faulty(entries, allowed, items, n))
  }

  /** The batch after its first k items, none of them faulty. */
  ghost predicate Reached(entries: Entries, allowed: seq<Compiled>, items: seq<Item>, k: nat, b: Batch)
    requires k <= |items|
  {
    && Extended(entries, Wishes(allowed, items, k), b.entries)
    && (forall id :: id in b.seenIDs <==> IDClaimed(items, k, id))
    && (forall key :: key in b.seenTools <==> ToolClaimed(items, k, key))
  }

  lemma NewIsWished(entries: Entries, allowed: seq<Compiled>, items: seq<Item>, k: nat, after: Entries, id: string)
    returns (j: nat)
    requires k <= |items| && Extended(entries, Wishes(allowed, items, k), after) && id in after && id !in entries
    ensures j < k && Wanted(allowed, items[j]) && DescriptorOf(items[j]).id == id && after[id] == EntryOf(items[j])
  {
    var wishes := Wishes(allowed, items, k);
    j :| 0 <= j < |wishes| && WishedFor(wishes[j], id);
    assert Registered(after, wishes[j].value) && wishes[j] == Wish(allowed, items[j]);
  }

  lemma TakenMeans(entries: Entries, allowed: seq<Compiled>, items: seq<Item>, k: nat, b: Batch, name: string)
    requires k <= |items| && Reached(entries, allowed, items, k, b)
    ensures ToolTaken(b.entries, name) || Normalize(name) in b.seenTools <==>
            ToolTaken(entries, name) || ToolClaimed(items, k, Normalize(name))
  {
    var key := Normalize(name);
    if ToolTaken(b.entries, name) && !ToolTaken(entries, name) {
      var id :| id in b.entries && HasTool(b.entries[id], key);
      var j := NewIsWished(entries, allowed, items, k, b.entries, id);
      assert ClaimsTool(items[j], key);
    }
    if ToolTaken(entries, name) {
      var id :| id in entries && HasTool(entries[id], key);
      assert HasTool(b.entries[id], key);
    }
  }

  lemma IdTakenMeans(entries: Entries, allowed: seq<Compiled>, items: seq<Item>, k: nat, b: Batch, id: string)
    requires k <= |items| && Reached(entries, allowed, items, k, b)
    ensures id in b.entries || id in b.seenIDs <==> id in entries || IDClaimed(items, k, id)
  {
    if id in b.entries && id !in entries {
      var j := NewIsWished(entries, allowed, items, k, b.entries, id);
      assert ClaimsID(items[j], id);
    }
  }

  lemma AnsweredMeans(entries: Entries, allowed: seq<Compiled>, items: seq<Item>, k: nat, after: Entries, key: string)
    requires k <= |items| && Extended(entries, Wishes(allowed, items, k), after)
    ensures Answered(after, key) <==> Answered(entries, key) || KeyClaimed(allowed, items, k, key)
  {
    if Answered(after, key) && !Answered(entries, key) {
      var id :| id in after && Answers(after[id], key);
      var j := NewIsWished(entries, allowed, items, k, after, id);
      assert Answers(EntryOf(items[j]), key);
    }
    if Answered(entries, key) {
      var id :| id in entries && Answers(entries[id], key);
      assert Answers(after[id], key);
    }
    if KeyClaimed(allowed, items, k, key) {
      var j :| 0 <= j < k && Wanted(allowed, items[j]) && Answers(EntryOf(items[j]), key);
      assert Wishes(allowed, items, k)[j] == Some(EntryOf(items[j]));
      assert Registered(after, EntryOf(items[j])) && Answers(after[EntryOf(items[j]).descriptor.id], key);
    }
  }

  lemma JudgedAsFaulty(entries: Entries, allowed: seq<Compiled>, items: seq<Item>, k: nat, b: Batch)
    requires k < |items| && Reached(entries, allowed, items, k, b)
    ensures var v := Judge(b, Admits(allowed, DescriptorOf(items[k])), items[k]);
            && (v == Rejected <==> Faulty(entries, allowed, items, k))
            && (v == Ready <==> !Faulty(entries, allowed, items, k) && Wanted(allowed, items[k]))
  {
    var item := items[k];
    if item.LegacyTool? { TakenMeans(entries, allowed, items, k, b, item.name); }
    IdTakenMeans(entries, allowed, items, k, b, DescriptorOf(item).id);
    AnsweredMeans(entries, allowed, items, k, b.entries, EntryOf(item).bareName);
    assert WellFormed(item) <==> !Malformed(item);
  }

  lemma ClaimedNext(items: seq<Item>, k: nat)
    requires k < |items|
    ensures forall id :: IDClaimed(items, k + 1, id) <==> IDClaimed(items, k, id) || ClaimsID(items[k], id)
    ensures forall key :: ToolClaimed(items, k + 1, key) <==> ToolClaimed(items, k, key) || ClaimsTool(items[k], key)
  {
    forall id ensures IDClaimed(items, k + 1, id) <==> IDClaimed(items, k, id) || ClaimsID(items[k], id) {
      if j :| 0 <= j < k && ClaimsID(items[j], id) { assert j < k + 1; }
    }
    forall key ensures ToolClaimed(items, k + 1, key) <==> ToolClaimed(items, k, key) || ClaimsTool(items[k], key) {
      if j :| 0 <= j < k && ClaimsTool(items[j], key) { assert j < k + 1; }
    }
  }

  lemma NextShape(b: Batch, allowed: seq<Compiled>, item: Item)
    requires var v := Judge(b, Admits(allowed, DescriptorOf(item)), item);
             v != Rejected && (v == Ready <==> Wanted(allowed, item))
    ensures Next(b, allowed, item).entries == Put(b.entries, Wish(allowed, item))
    ensures Next(b, allowed, item).seenIDs == b.seenIDs + if Considered(item) then {DescriptorOf(item).id} else {}
    ensures Next(b, allowed, item).seenTools ==
            b.seenTools + if Considered(item) && item.LegacyTool? then {Normalize(item.name)} else {}
  {
    EntryNames(item);
  }

  lemma ReachedNext(entries: Entries, allowed: seq<Compiled>, items: seq<Item>, k: nat, b: Batch)
    requires k < |items| && Reached(entries, allowed, items, k, b) && !Faulty(entries, allowed, items, k)
    ensures Reached(entries, allowed, items, k + 1, Next(b, allowed, items[k]))
  {
    JudgedAsFaulty(entries, allowed, items, k, b);
    NextShape(b, allowed, items[k]);
    ClaimedNext(items, k);
    assert Wish(allowed, items[k]).Some? ==> Wish(allowed, items[k]).value.descriptor.id !in b.entries by {
      IdTakenMeans(entries, allowed, items, k, b, DescriptorOf(items[k]).id);
      EntryNames(items[k]);
    }
    ExtendedAppend(entries, Wishes(allowed, items, k), Wish(allowed, items[k]), b.entries);
    assert Wishes(allowed, items, k) + [Wish(allowed, items[k])] == Wishes(allowed, items, k + 1);
  }

  lemma {:induction false} RunExactly(entries: Entries, allowed: seq<Compiled>, items: seq<Item>, k: nat, b: Batch)
    requires k <= |items| && Reached(entries, allowed, items, k, b)
    requires forall j :: 0 <= j < k ==> !Faulty(entries, allowed, items, j)
    ensures BatchOutcome(entries, allowed, items, Run(b, allowed, items[k..]).0, Run(b, allowed, items[k..]).1)
    decreases |items| - k
  {
    if k == |items| {
      assert StopsAt(entries, allowed, items, k) && Extended(entries, Wishes(allowed, items, k), b.entries);
    } else {
      JudgedAsFaulty(entries, allowed, items, k, b);
      assert items[k..][0] == items[k] && items[k..][1..] == items[k + 1..];
      if Faulty(entries, allowed, items, k) {
        assert StopsAt(entries, allowed, items, k) && Extended(entries, Wishes(allowed, items, k), b.entries);
      } else {
        ReachedNext(entries, allowed, items, k, b);
        RunExactly(entries, allowed, items, k + 1, Next(b, allowed, items[k]));
      }
    }
  }

  /** The outcome of a whole batch, by its items alone. */
  lemma BatchExactly(entries: Entries, allowed: seq<Compiled>, items: seq<Item>)
    ensures var r := Run(Batch(entries, {}, {}), allowed, items); BatchOutcome(entries, allowed, items, r.0, r.1)
  {
    RunExactly(entries, allowed, items, 0, Batch(entries, {}, {}));
    assert items[0..] == items;
  }

  /** So a batch succeeds exactly if none of its items is faulty, and then registers exactly the
      wanted ones. */
  lemma BatchSucceedsExactly(entries: Entries, allowed: seq<Compiled>, items: seq<Item>, after: Entries, ok: bool)
    requires BatchOutcome(entries, allowed, items, after, ok)
    ensures ok <==> forall j :: 0 <= j < |items| ==> !Faulty(entries, allowed, items, j)
    ensures ok ==> Extended(entries, Wishes(allowed, items, |items|), after)
  {}

  // ----- the indexes -----

  type NameIndex = map<string, seq<string>>

  function Ids(index: NameIndex, key: string): seq<string> {
    if key in index then index[key] else []
  }

  /** How often an entry stands in the index under a key. */
  function Places(e: Entry, key: string): nat {
    if key == "" then 0
    else (if Normalize(e.descriptor.name) == key then 1 else 0) + (if e.bareName == key then 1 else 0)
  }

  function Count(index: NameIndex, key: string, id: string): nat {
    multiset(Ids(index, key))[id]
  }

  /** The name index holds every entry as often as its names call for, and nothing else. */
  ghost predicate NamesExact(entries: Entries, index: NameIndex) {
    forall key, id :: Count(index, key, id) == if id in entries then Places(entries[id], key) else 0
  }

  /** The tool index maps exactly the non-blank tool names, each to its only holder. */
  ghost predicate ToolsExact(entries: Entries, tools: map<string, string>) {
    && (forall n :: n in tools ==> n != "" && tools[n] in entries && HasTool(entries[tools[n]], n))
    && forall id :: id in entries && entries[id].tool.Some? && Normalize(entries[id].tool.value) != "" ==>
                      var n := Normalize(entries[id].tool.value); n in tools && tools[n] == id
  }

  ghost predicate BareUnique(entries: Entries) {
    forall i, j :: i in entries && j in entries && i != j && entries[i].bareName != ""
                   ==> entries[i].bareName != entries[j].bareName
  }

  ghost predicate ToolsUnique(entries: Entries) {
    forall i, j :: i in entries && j in entries && i != j && entries[i].tool.Some?
                   ==> Normalize(entries[i].tool.value) == "" || !HasTool(entries[j], Normalize(entries[i].tool.value))
  }

  ghost predicate Identified(entries: Entries) {
    forall id :: id in entries ==> id != "" && entries[id].descriptor.id == id
  }

  lemma ToolsExactUnique(entries: Entries, tools: map<string, string>)
    requires ToolsExact(entries, tools)
    ensures ToolsUnique(entries)
  {}

  /** An index kept up to date holds under every key the same ids, as often, as one built
      from scratch. */
  lemma SameAsRebuilt(entries: Entries, kept: NameIndex, rebuilt: NameIndex, key: string)
    requires NamesExact(entries, kept) && NamesExact(entries, rebuilt)
    ensures multiset(Ids(kept, key)) == multiset(Ids(rebuilt, key))
  {
    forall id ensures multiset(Ids(kept, key))[id] == multiset(Ids(rebuilt, key))[id] {
      assert Count(kept, key, id) == Count(rebuilt, key, id);
    }
  }

  /** An id stands under a key exactly if its entry answers to it. */
  lemma IndexIsScan(entries: Entries, index: NameIndex, key: string, id: string)
    requires NamesExact(entries, index)
    ensures id in Ids(index, key) <==> id in entries && Answers(entries[id], key)
  {
    assert id in Ids(index, key) <==> Count(index, key, id) > 0;
  }

  lemma SomeIdIsAnswered(entries: Entries, index: NameIndex, key: string)
    requires NamesExact(entries, index)
    ensures Ids(index, key) != [] <==> Answered(entries, key)
    ensures var ids := Ids(index, key);
            forall i :: 0 <= i < |ids| ==> ids[i] in entries && Answers(entries[ids[i]], key)
  {
    var ids := Ids(index, key);
    forall i | 0 <= i < |ids| ensures ids[i] in entries && Answers(entries[ids[i]], key) {
      IndexIsScan(entries, index, key, ids[i]);
    }
    if ids != [] { assert ids[0] in entries; }
    if Answered(entries, key) {
      var id :| id in entries && Answers(entries[id], key);
      IndexIsScan(entries, index, key, id);
    }
  }

  function Appended(index: NameIndex, key: string, id: string): NameIndex {
    if key == "" then index else index[key := Ids(index, key) + [id]]
  }

  lemma AppendedCount(index: NameIndex, at: string, id: string, key: string, x: string)
    ensures Count(Appended(index, at, id), key, x) == Count(index, key, x) + if at == key != "" && x == id then 1 else 0
  {}

  /** Nothing moves in the index: later registrations only add holders at the end. */
  ghost predicate Extends(before: NameIndex, after: NameIndex) {
    forall key :: Ids(before, key) <= Ids(after, key)
  }

  lemma IndexedExtends(index: NameIndex, id: string, e: Entry)
    ensures Extends(index, Indexed(index, id, e))
  {
    var middle := Appended(index, Normalize(e.descriptor.name), id);
    forall key ensures Ids(index, key) <= Ids(Indexed(index, id, e), key) {
      assert Ids(index, key) <= Ids(middle, key) <= Ids(Appended(middle, e.bareName, id), key);
    }
  }

  function Indexed(index: NameIndex, id: string, e: Entry): NameIndex {
    Appended(Appended(index, Normalize(e.descriptor.name), id), e.bareName, id)
  }

  lemma IndexedExact(entries: Entries, index: NameIndex, id: string, e: Entry)
    requires NamesExact(entries, index) && id !in entries
    ensures NamesExact(entries[id := e], Indexed(index, id, e))
  {
    forall key, x ensures Count(Indexed(index, id, e), key, x) ==
                          if x in entries[id := e] then Places(entries[id := e][x], key) else 0
    {
      var name := Normalize(e.descriptor.name);
      AppendedCount(index, name, id, key, x);
      AppendedCount(Appended(index, name, id), e.bareName, id, key, x);
      assert Count(index, key, x) == if x in entries then Places(entries[x], key) else 0;
    }
  }

  function ToolIndexed(tools: map<string, string>, id: string, e: Entry): map<string, string> {
    if e.tool.Some? && Normalize(e.tool.value) != "" then tools[Normalize(e.tool.value) := id] else tools
  }

  lemma ToolIndexedExact(entries: Entries, tools: map<string, string>, id: string, e: Entry)
    requires ToolsExact(entries, tools) && id !in entries && (e.tool.Some? ==> !ToolTaken(entries, e.tool.value))
    ensures ToolsExact(entries[id := e], ToolIndexed(tools, id, e))
  {
    var after := entries[id := e];
    var index := ToolIndexed(tools, id, e);
    forall x | x in after && after[x].tool.Some? && Normalize(after[x].tool.value) != ""
      ensures var n := Normalize(after[x].tool.value); n in index && index[n] == x
    {
      if x != id && e.tool.Some? { assert HasTool(entries[x], Normalize(entries[x].tool.value)); }
    }
  }

  // ----- lookup, decided by scanning -----

  /** A name resolves to the entry of that id, or to one answering to the normalized name. */
  predicate Resolves(entries: Entries, name: string) {
    name in entries || Answered(entries, Normalize(name))
  }

  predicate ResolvesTo(entries: Entries, name: string, d: Descriptor) {
    if name in entries then d == entries[name].descriptor
    else exists id :: id in entries && Answers(entries[id], Normalize(name)) && d == entries[id].descriptor
  }

  /** The entry of that id, or else the first holder of the name. */
  function FirstHolder(capabilities: map<string, Descriptor>, names: NameIndex, name: string): Option<Descriptor> {
    var ids := Ids(names, Normalize(name));
    if name in capabilities then Some(capabilities[name])
    else if ids != [] && ids[0] in capabilities then Some(capabilities[ids[0]])
    else None
  }

  lemma LowerIdempotent(t: string)
    ensures Lower(Lower(t)) == Lower(t)
  {
    forall i | 0 <= i < |t| ensures Lower(Lower(t))[i] == Lower(t)[i] { LowerKeepsSpace(t[i]); }
  }

  lemma LowerKeepsTrimmed(t: string)
    requires t != "" ==> !IsSpace(t[0]) && !IsSpace(t[|t| - 1])
    ensures Trim(Lower(t)) == Lower(t)
  {
    if t != "" {
      LowerKeepsSpace(t[0]);
      LowerKeepsSpace(t[|t| - 1]);
    }
    TrimFixed(Lower(t));
  }

  lemma NormalizeIdempotent(s: string)
    ensures Normalize(Normalize(s)) == Normalize(s)
  {
    TrimProperties(s);
    LowerKeepsTrimmed(Trim(s));
    LowerIdempotent(Trim(s));
  }

  /** Lookup of the name finds the entry, and finds it by its bare name. */
  ghost predicate FoundAsBare(entries: Entries, names: NameIndex, id: string, name: string) {
    id in entries && id in Ids(names, Normalize(name)) && entries[id].bareName == Normalize(name)
  }

  /** In a coherent registry an entry is found by its bare name, under that name or any other
      spelling, exactly if the bare name is lower case and trimmed: bare names are indexed as
      they are, and lookup normalizes. If the manifest name does not answer instead, it is not
      found at all. */
  lemma BareNameReachable(entries: Entries, names: NameIndex, id: string)
    requires NamesExact(entries, names) && id in entries && entries[id].bareName != ""
    ensures var bare := entries[id].bareName;
            && (FoundAsBare(entries, names, id, bare) <==> Normalize(bare) == bare)
            && ((exists name :: FoundAsBare(entries, names, id, name)) <==> Normalize(bare) == bare)
            && (Normalize(entries[id].descriptor.name) != Normalize(bare) ==>
                  (id in Ids(names, Normalize(bare)) <==> Normalize(bare) == bare))
  {
    var bare := entries[id].bareName;
    IndexIsScan(entries, names, Normalize(bare), id);
    if name :| FoundAsBare(entries, names, id, name) { NormalizeIdempotent(name); }
  }

  lemma NormalizeShortens(s: string)
    ensures |Normalize(s)| <= |s|
  {
    TrimProperties(s);
  }

  /** For every capability "ns:cap.name" whose name is not in normal form, and whose manifest name
      is another: a fresh registry accepts it, and looking its bare name up finds nothing,
      neither as asked for nor after the fallback to the normalized name. */
  lemma MixedCaseBareNameIsMissed(ns: string, name: string, d: Descriptor)
    requires name != "" && ColonFree(name) && Normalize(name) != name
    requires d.id == ns + ":cap." + name && Normalize(d.name) != Normalize(name)
    ensures var item := Handler(d, true, true); var registered := map[d.id := EntryOf(item)];
            && EntryOf(item).bareName == name
            && Run(Batch(map[], {}, {}), [], [item]) == (registered, true)
            && !Resolves(registered, name) && !Resolves(registered, Normalize(name))
  {
    BareNameOfCapability(ns, name);
    FreshRegistryAccepts(Handler(d, true, true));
    assert |d.id| > |name|;
    LoneEntryIsMissed(d.id, EntryOf(Handler(d, true, true)));
  }

  lemma LoneEntryIsMissed(id: string, e: Entry)
    requires |id| > |e.bareName| && Normalize(e.bareName) != e.bareName
    requires Normalize(e.descriptor.name) != Normalize(e.bareName)
    ensures !Resolves(map[id := e], e.bareName) && !Resolves(map[id := e], Normalize(e.bareName))
  {
    NormalizeShortens(e.bareName);
    NormalizeIdempotent(e.bareName);
    assert !Answers(e, Normalize(e.bareName));
  }

  lemma FreshRegistryAccepts(item: Item)
    requires !item.LegacyTool? && WellFormed(item)
    ensures Run(Batch(map[], {}, {}), [], [item]) == (map[EntryOf(item).descriptor.id := EntryOf(item)], true)
  {
    var b := Batch(map[], {}, {});
    assert Judge(b, true, item) == Ready;
    var c := Next(b, [], item);
    assert Run(c, [], []) == (c.entries, true);
    assert [item][1..] == [];
  }

  lemma TestRunIsMissed(d: Descriptor)
    requires d.id == "ns:cap.Test_Run" && d.name == "run the tests"
    ensures var item := Handler(d, true, true); var registered := map[d.id := EntryOf(item)];
            Run(Batch(map[], {}, {}), [], [item]) == (registered, true) && !Resolves(registered, "Test_Run")
  {
    var name, manifest := "Test_Run", "run the tests";
    assert d.id == "ns" + ":cap." + name;
    TrimFixed(name);
    TrimFixed(manifest);
    assert Normalize(name)[0] == 't' && name[0] == 'T';
    assert |Normalize(manifest)| != |Normalize(name)|;
    MixedCaseBareNameIsMissed("ns", name, d);
  }

  // ----- restriction -----

  function Filtered(entries: Entries, allowed: seq<Compiled>): Entries {
    map id | id in entries && Admits(allowed, entries[id].descriptor) :: entries[id]
  }

  function CompileAll(selectors: seq<Selector>): seq<Compiled> {
    seq(|selectors|, i requires 0 <= i < |selectors| => Compile(selectors[i]))
  }

  /** For valid selectors and trimmed identities: on the list if a selector plainly matches. */
  lemma AdmitsAsPlain(selectors: seq<Selector>, d: Descriptor)
    requires forall i :: 0 <= i < |selectors| ==> Validated(selectors[i])
    requires TrimmedOrBlank(d.id) && TrimmedOrBlank(d.name)
    ensures Admits(CompileAll(selectors), d) <==>
            selectors == [] || exists i :: 0 <= i < |selectors| && Matches(selectors[i], d)
  {
    var compiled := CompileAll(selectors);
    forall i | 0 <= i < |selectors| ensures CompiledMatches(compiled[i], ProfileOf(d)) <==> Matches(selectors[i], d) {
      MatchersAgree(selectors[i], d);
    }
  }

  function Descriptors(entries: Entries): map<string, Descriptor> {
    map id | id in entries :: entries[id].descriptor
  }

  /** Everything a registry promises of its maps. */
  ghost predicate Coherent(capabilities: map<string, Descriptor>, entries: Entries, names: NameIndex,
                           tools: map<string, string>) {
    && capabilities == Descriptors(entries) && Identified(entries) && BareUnique(entries)
    && NamesExact(entries, names) && ToolsExact(entries, tools)
  }

  lemma NewBareUnique(entries: Entries, e: Entry)
    requires Identified(entries) && BareUnique(entries)
    requires e.descriptor.id != "" && e.descriptor.id !in entries && !Answered(entries, e.bareName)
    ensures var after := entries[e.descriptor.id := e];
            && Identified(after) && BareUnique(after)
            && Descriptors(after) == Descriptors(entries)[e.descriptor.id := e.descriptor]
  {
    assert forall x :: x in entries && e.bareName != "" ==> !Answers(entries[x], e.bareName);
  }

  lemma RegisteredCoherent(capabilities: map<string, Descriptor>, entries: Entries, names: NameIndex,
                           tools: map<string, string>, e: Entry)
    requires Coherent(capabilities, entries, names, tools)
    requires e.descriptor.id != "" && e.descriptor.id !in entries && !Answered(entries, e.bareName)
    requires e.tool.Some? ==> !ToolTaken(entries, e.tool.value)
    ensures var id := e.descriptor.id;
            Coherent(capabilities[id := e.descriptor], entries[id := e],
                     Indexed(names, id, e), ToolIndexed(tools, id, e))
  {
    var id := e.descriptor.id;
    IndexedExact(entries, names, id, e);
    ToolIndexedExact(entries, tools, id, e);
    NewBareUnique(entries, e);
  }

  lemma ToolIdNotEmpty(item: Item)
    requires item.LegacyTool?
    ensures DescriptorOf(item).id != ""
  {
    assert |"tool:" + Trim(item.name)| >= 5;
  }

  /** An item judged ready may be registered. */
  lemma ReadyIsNew(b: Batch, item: Item)
    requires Judge(b, true, item) == Ready
    ensures var e := EntryOf(item);
            && e.descriptor.id != "" && e.descriptor.id !in b.entries && !Answered(b.entries, e.bareName)
            && (e.tool.Some? ==> !ToolTaken(b.entries, e.tool.value))
  {
    if item.LegacyTool? { ToolIdNotEmpty(item); }
  }

  /** With an empty allowlist exactly the tools that admission refuses are passed over. */
  lemma EmptyAllowlistAdmitsAll(b: Batch, item: Item)
    ensures Judge(b, Admits([], DescriptorOf(item)), item) == Skipped <==> item.LegacyTool? && item.admission == Refused
  {}

  class CapabilityRegistry {
    var capabilities: map<string, Descriptor>
    var entries: Entries
    var nameIndex: NameIndex
    var toolIndex: map<string, string>
    var allowed: seq<Compiled>
    const modelAliases: map<string, string>
    const defaultAliases: map<string, string>

    ghost predicate Valid() reads this {
      Coherent(capabilities, entries, nameIndex, toolIndex)
    }

    constructor (modelAliases: map<string, string>, defaultAliases: map<string, string>)
      ensures Valid() && entries == map[] && allowed == []
    {
      capabilities, entries, nameIndex, toolIndex, allowed := map[], map[], map[], map[], [];
      this.modelAliases, this.defaultAliases := modelAliases, defaultAliases;
    }

    method IndexEntry(id: string, e: Entry)
      requires id != ""
      modifies this`nameIndex, this`toolIndex
      ensures nameIndex == Indexed(old(nameIndex), id, e) && toolIndex == ToolIndexed(old(toolIndex), id, e)
    {
      var name := Normalize(e.descriptor.name);
      if name != "" {
        nameIndex := nameIndex[name := Ids(nameIndex, name) + [id]];
      }
      if e.bareName != "" {
        nameIndex := nameIndex[e.bareName := Ids(nameIndex, e.bareName) + [id]];
      }
      if e.tool.Some? {
        var toolName := Normalize(e.tool.value);
        if toolName != "" {
          toolIndex := toolIndex[toolName := id];
        }
      }
    }

    /** Both indexes afresh from the entries, in whatever order they come. */
    method RebuildIndexes()
      requires ToolsUnique(entries) && Identified(entries)
      modifies this`nameIndex, this`toolIndex
      ensures NamesExact(entries, nameIndex) && ToolsExact(entries, toolIndex)
    {
      nameIndex, toolIndex := map[], map[];
      var pending := entries.Keys;
      ghost var done: Entries := map[];
      while pending != {}
        invariant pending <= entries.Keys && Part(done, entries, pending)
        invariant entries == old(entries)
        invariant NamesExact(done, nameIndex) && ToolsExact(done, toolIndex)
        decreases |pending|
      {
        var id :| id in pending;
        PartStep(done, entries, pending, id);
        IndexedExact(done, nameIndex, id, entries[id]);
        ToolIndexedExact(done, toolIndex, id, entries[id]);
        IndexEntry(id, entries[id]);
        done := done[id := entries[id]];
        pending := pending - {id};
      }
      assert done == entries;
    }

    method RegisterEntry(e: Entry)
      requires Valid() && e.descriptor.id != "" && e.descriptor.id !in entries && !Answered(entries, e.bareName)
      requires e.tool.Some? ==> !ToolTaken(entries, e.tool.value)
      modifies this`capabilities, this`entries, this`nameIndex, this`toolIndex
      ensures Valid() && entries == old(entries)[e.descriptor.id := e] && Extends(old(nameIndex), nameIndex)
    {
      IndexedExtends(nameIndex, e.descriptor.id, e);
      RegisteredCoherent(capabilities, entries, nameIndex, toolIndex, e);
      capabilities := capabilities[e.descriptor.id := e.descriptor];
      entries := entries[e.descriptor.id := e];
      IndexEntry(e.descriptor.id, e);
    }

    method Allows(d: Descriptor, selectors: seq<Compiled>) returns (r: bool)
      ensures r == Admits(selectors, d)
    {
      if selectors == [] {
        return true;
      }
      var profile := BuildDescriptorProfile(d);
      for i := 0 to |selectors|
        invariant forall j :: 0 <= j < i ==> !CompiledMatches(selectors[j], ProfileOf(d))
      {
        if CompiledMatches(selectors[i], profile) {
          return true;
        }
      }
      return false;
    }

    /** The tool index answers as a scan of the tools would. */
    method HasLocalTool(name: string) returns (r: bool)
      requires Valid()
      ensures r == ToolTaken(entries, name)
    {
      var key := Normalize(name);
      if key == "" || key !in toolIndex {
        return false;
      }
      var id := toolIndex[key];
      r := id != "" && id in entries && entries[id].tool.Some?;
    }

    /** The name index shows a holder of a bare name exactly if a scan would. */
    method BareNameHeld(bare: string, id: string) returns (r: bool)
      requires Valid() && id !in entries
      ensures r == Answered(entries, bare)
    {
      SomeIdIsAnswered(entries, nameIndex, bare);
      if bare == "" {
        return false;
      }
      var holders := Ids(nameIndex, bare);
      for i := 0 to |holders|
        invariant i == 0
      {
        if holders[i] != id {
          return true;
        }
      }
      return false;
    }

    /** Decides on an item by the indexes, as a scan of the entries would. */
    method Prepare(item: Item, seenIDs: set<string>, seenTools: set<string>) returns (v: Verdict)
      requires Valid()
      ensures v == Judge(Batch(entries, seenIDs, seenTools), Admits(allowed, DescriptorOf(item)), item)
    {
      var d := DescriptorOf(item);
      match item {
        case LegacyTool(name, _, provided, admission) =>
          if admission == Fails {
            return Rejected;
          }
          if admission == Refused {
            return Skipped;
          }
          var taken := HasLocalTool(name);
          if provided.runtimeFamily != "local-tool" || taken || Normalize(name) in seenTools {
            return Rejected;
          }
        case _ =>
          if d.id == "" || !item.coordinationOk {
            return Rejected;
          }
      }
      if d.id in capabilities || d.id in seenIDs {
        return Rejected;
      }
      var admitted := Allows(d, allowed);
      if !admitted {
        return Skipped;
      }
      var held := BareNameHeld(EntryOf(item).bareName, d.id);
      return if held then Rejected else Ready;
    }

    /** Registers items in turn up to the first rejected one. Coherent indexes decide exactly
        as scans would, and stay coherent even if the batch fails midway. */
    method RegisterBatch(items: seq<Item>) returns (ok: bool)
      requires Valid()
      modifies this`capabilities, this`entries, this`nameIndex, this`toolIndex
      ensures Valid() && BatchOutcome(old(entries), allowed, items, entries, ok)
      ensures (entries, ok) == Run(Batch(old(entries), {}, {}), allowed, items)
      ensures Extends(old(nameIndex), nameIndex)
    {
      BatchExactly(entries, allowed, items);
      ok := RegisterInTurn(items);
    }

    method RegisterInTurn(items: seq<Item>) returns (ok: bool)
      requires Valid()
      modifies this`capabilities, this`entries, this`nameIndex, this`toolIndex
      ensures Valid() && Extends(old(nameIndex), nameIndex)
      ensures (entries, ok) == Run(Batch(old(entries), {}, {}), allowed, items)
    {
      var seenIDs: set<string>, seenTools: set<string> := {}, {};
      for i := 0 to |items|
        invariant Valid() && Extends(old(nameIndex), nameIndex)
        invariant Run(Batch(old(entries), {}, {}), allowed, items)
                  == Run(Batch(entries, seenIDs, seenTools), allowed, items[i..])
      {
        var item := items[i];
        ghost var b := Batch(entries, seenIDs, seenTools);
        assert items[i..][0] == item && items[i..][1..] == items[i + 1..];
        var v := Prepare(item, seenIDs, seenTools);
        if v == Rejected {
          return false;
        }
        if !item.LegacyTool? || item.admission == Admitted {
          seenIDs := seenIDs + {DescriptorOf(item).id};
          if item.LegacyTool? {
            seenTools := seenTools + {Normalize(item.name)};
          }
        }
        assert Batch(entries, seenIDs, seenTools) == Noted(b, item);
        if v == Ready {
          ReadyIsNew(b, item);
          RegisterEntry(EntryOf(item));
        }
      }
      return true;
    }

    /** The ids of the descriptors some selector admits, in whatever order they come. */
    method Keep(all: map<string, Descriptor>, compiled: seq<Compiled>) returns (kept: set<string>)
      ensures kept == set id | id in all && Admits(compiled, all[id])
    {
      kept := all.Keys;
      var pending := all.Keys;
      while pending != {}
        invariant pending <= all.Keys
        invariant kept == set id | id in all && (id in pending || Admits(compiled, all[id]))
        decreases |pending|
      {
        var id :| id in pending;
        pending := pending - {id};
        var admitted := Allows(all[id], compiled);
        if !admitted {
          kept := kept - {id};
        }
      }
    }

    /** Keeps exactly the entries some selector admits; no selectors restrict nothing. */
    method RestrictToCapabilities(selectors: seq<Selector>)
      requires Valid()
      modifies this`capabilities, this`entries, this`nameIndex, this`toolIndex
      ensures Valid()
      ensures entries == if selectors == [] then old(entries) else Filtered(old(entries), CompileAll(selectors))
    {
      if selectors == [] {
        return;
      }
      var compiled := CompileAll(selectors);
      var kept := Keep(capabilities, compiled);
      KeptIsFiltered(entries, compiled, kept);
      FilteredUnique(entries, compiled, toolIndex);
      entries, capabilities := Only(entries, kept), Only(capabilities, kept);
      RebuildIndexes();
    }

    /** A configured allowlist governs later registrations too, unless it is empty: then the
        registry is emptied, and everything is admitted from there on. */
    method SetAllowedCapabilities(selectors: seq<Selector>)
      requires Valid()
      modifies this
      ensures Valid() && allowed == CompileAll(selectors)
      ensures entries == if selectors == [] then map[] else Filtered(old(entries), CompileAll(selectors))
    {
      if selectors == [] {
        allowed := [];
        capabilities, entries, nameIndex, toolIndex := map[], map[], map[], map[];
        return;
      }
      allowed := CompileAll(selectors);
      RestrictToCapabilities(selectors);
    }

    function ToolName(name: string): string {
      var n := Normalize(name);
      if n in modelAliases then modelAliases[n] else if n in defaultAliases then defaultAliases[n] else n
    }

    /** By id, or by the name index; exactly as a scan of the entries would find. */
    method Resolve(name: string) returns (r: Option<Descriptor>)
      requires Valid()
      ensures r.Some? <==> Resolves(entries, name)
      ensures r.Some? ==> ResolvesTo(entries, name, r.value)
      ensures r == FirstHolder(capabilities, nameIndex, name)
    {
      if name in capabilities {
        return Some(capabilities[name]);
      }
      SomeIdIsAnswered(entries, nameIndex, Normalize(name));
      var ids := Ids(nameIndex, Normalize(name));
      for i := 0 to |ids|
        invariant i == 0
      {
        if ids[i] in capabilities {
          assert Answers(entries[ids[i]], Normalize(name));
          return Some(capabilities[ids[i]]);
        }
      }
      return None;
    }

    /** By id, name or bare name; failing that, by the alias of the name. */
    method GetCapability(name: string) returns (r: Option<Descriptor>)
      requires Valid()
      ensures r.Some? <==> Resolves(entries, name) || Resolves(entries, ToolName(name))
      // the model's aliases go before the built-in ones
      ensures Normalize(name) in modelAliases ==> ToolName(name) == modelAliases[Normalize(name)]
      ensures Normalize(name) !in modelAliases && Normalize(name) in defaultAliases ==>
                ToolName(name) == defaultAliases[Normalize(name)]
      ensures Normalize(name) !in modelAliases && Normalize(name) !in defaultAliases ==>
                ToolName(name) == Normalize(name)
      ensures r.Some? ==> ResolvesTo(entries, if Resolves(entries, name) then name else ToolName(name), r.value)
      ensures r == FirstHolder(capabilities, nameIndex, if Resolves(entries, name) then name else ToolName(name))
    {
      r := Resolve(name);
      if r.Some? {
        return;
      }
      var normalized := ToolName(name);
      if normalized == name {
        return None;
      }
      r := Resolve(normalized);
    }
  }

  /** All entries but the pending ones. */
  ghost predicate Part(done: Entries, entries: Entries, pending: set<string>) {
    && done.Keys == entries.Keys - pending
    && forall id :: id in done ==> done[id] == entries[id]
  }

  lemma PartStep(done: Entries, entries: Entries, pending: set<string>, id: string)
    requires Part(done, entries, pending) && id in pending && id in entries && ToolsUnique(entries)
    ensures Part(done[id := entries[id]], entries, pending - {id})
    ensures entries[id].tool.Some? ==> !ToolTaken(done, entries[id].tool.value)
  {}

  function Only<T>(m: map<string, T>, kept: set<string>): map<string, T> {
    map id | id in m && id in kept :: m[id]
  }

  lemma KeptIsFiltered(entries: Entries, compiled: seq<Compiled>, kept: set<string>)
    requires kept == set id | id in Descriptors(entries) && Admits(compiled, Descriptors(entries)[id])
    ensures Only(entries, kept) == Filtered(entries, compiled)
    ensures Only(Descriptors(entries), kept) == Descriptors(Filtered(entries, compiled))
  {}

  lemma FilteredUnique(entries: Entries, compiled: seq<Compiled>, tools: map<string, string>)
    requires Identified(entries) && BareUnique(entries) && ToolsExact(entries, tools)
    ensures var kept := Filtered(entries, compiled); Identified(kept) && BareUnique(kept) && ToolsUnique(kept)
  {
    ToolsExactUnique(entries, tools);
    PartUnique(Filtered(entries, compiled), entries);
  }

  lemma PartUnique(kept: Entries, entries: Entries)
    requires kept.Keys <= entries.Keys && forall id :: id in kept ==> kept[id] == entries[id]
    requires Identified(entries) && BareUnique(entries) && ToolsUnique(entries)
    ensures Identified(kept) && BareUnique(kept) && ToolsUnique(kept)
  {}
}
