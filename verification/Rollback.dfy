/** The rollback ring (capability/registry/rollback.go): a bounded store of undo tokens that
    expire, kept as a list in order of insertion and a map by invocation id. */
module Rollback {
  import opened Options

  /** What a token retains of its call; scrubbing clears it. */
  datatype Payload = Payload(args: Option<string>, result: Option<string>)

  const NIL := Payload(None, None)

  const CAPACITY := 64
  const TTL := 15 * 60

  datatype Taken = NotFound | Expired(tool: string) | Token(id: string, tool: string, payload: Payload)

  class Entry {
    const id: string
    const tool: string
    const expiresAt: int
    ghost const given: Payload
    var payload: Payload

    constructor (id: string, tool: string, payload: Payload, expiresAt: int)
      ensures this.id == id && this.tool == tool && this.expiresAt == expiresAt
      ensures this.payload == payload && this.given == payload
    {
      this.id, this.tool, this.expiresAt := id, tool, expiresAt;
      this.payload, this.given := payload, payload;
    }
  }

  // ----- positions in the history -----

  ghost predicate Increasing(pos: seq<nat>) {
    forall i, j :: 0 <= i < j < |pos| ==> pos[i] < pos[j]
  }

  lemma {:induction false} GapsAddUp(pos: seq<nat>, k: nat)
    requires Increasing(pos) && k < |pos|
    ensures pos[0] + k <= pos[k]
  {
    if k > 0 { GapsAddUp(pos, k - 1); }
  }

  /** The live entries are these positions of the history, in order. */
  ghost predicate Placed(entries: seq<Entry>, log: seq<Entry>, pos: seq<nat>) {
    && |pos| == |entries| && Increasing(pos)
    && forall i :: 0 <= i < |pos| ==> pos[i] < |log| && log[pos[i]] == entries[i]
  }

  ghost predicate Distinct(log: seq<Entry>) {
    forall i, j :: 0 <= i < j < |log| ==> log[i] != log[j]
  }

  lemma PlacedDistinct(entries: seq<Entry>, log: seq<Entry>, pos: seq<nat>)
    requires Placed(entries, log, pos) && Distinct(log)
    ensures Distinct(entries)
  {
    forall i, j | 0 <= i < j < |entries| ensures entries[i] != entries[j] {
      assert pos[i] < pos[j];
    }
  }

  /** When the ring is full, 63 tokens have been stored since its oldest. */
  lemma OldestOfFull(entries: seq<Entry>, log: seq<Entry>, pos: seq<nat>)
    requires Placed(entries, log, pos) && |entries| == CAPACITY
    ensures pos[0] + 64 <= |log|
  {
    GapsAddUp(pos, CAPACITY - 1);
  }

  // ----- the two indexes -----

  ghost predicate Agree(entries: seq<Entry>, byID: map<string, Entry>) {
    && Distinct(entries)
    && (forall i :: 0 <= i < |entries| ==> entries[i].id in byID && byID[entries[i].id] == entries[i])
    && forall k :: k in byID ==> byID[k] in entries && byID[k].id == k
  }

  ghost predicate Ordered(entries: seq<Entry>) {
    forall i, j :: 0 <= i < j < |entries| ==> entries[i].expiresAt <= entries[j].expiresAt
  }

  /** The map only names live entries; if `exact`, every one of them. */
  ghost predicate Linked(entries: seq<Entry>, byID: map<string, Entry>, exact: bool) {
    && Distinct(entries)
    && (forall k :: k in byID ==> byID[k] in entries && byID[k].id == k)
    && (exact ==> Agree(entries, byID))
  }

  lemma LinkedWithout(entries: seq<Entry>, byID: map<string, Entry>, exact: bool, i: nat)
    requires Linked(entries, byID, exact) && i < |entries|
    ensures Linked(Rest(entries, i), byID - {entries[i].id}, exact)
  {
    var rest := Rest(entries, i);
    forall k | k in byID && k != entries[i].id ensures byID[k] in rest {
      var j :| 0 <= j < |entries| && entries[j] == byID[k];
      assert j != i;
      assert rest[if j < i then j else j - 1] == entries[j];
    }
  }

  /** Appending keeps the agreement exactly when nobody else has the id. */
  lemma AgreeAppend(entries: seq<Entry>, byID: map<string, Entry>, e: Entry)
    requires Agree(entries, byID) && e !in entries
    ensures Agree(entries + [e], byID[e.id := e]) <==> Unheld(entries, e.id)
  {
    var all, map1 := entries + [e], byID[e.id := e];
    assert all[|entries|] == e;
    if e.id in byID {
      var i :| 0 <= i < |entries| && entries[i] == byID[e.id];
      assert all[i] == entries[i] && map1[all[i].id] != all[i];
    } else {
      forall i | 0 <= i < |all| ensures all[i].id in map1 && map1[all[i].id] == all[i] {}
      forall k | k in map1 ensures map1[k] in all && map1[k].id == k {}
    }
  }

  lemma LinkedAppend(entries: seq<Entry>, byID: map<string, Entry>, exact: bool, e: Entry)
    requires Linked(entries, byID, exact) && e !in entries
    ensures Linked(entries + [e], byID[e.id := e], exact && Unheld(entries, e.id))
  {
    var all := entries + [e];
    assert all[|entries|] == e;
    if exact { AgreeAppend(entries, byID, e); }
    forall k | k in byID ensures byID[k] in all { assert byID[k] in entries; }
  }

  ghost function IdsOf(entries: seq<Entry>): set<string> {
    set i | 0 <= i < |entries| :: entries[i].id
  }

  /** The ids of the first k entries, whoever holds them now, are gone from the map. */
  ghost predicate Cut(before: map<string, Entry>, after: map<string, Entry>, was: seq<Entry>, k: nat) {
    k <= |was| && after == before - IdsOf(was[..k])
  }

  lemma CutNone(byID: map<string, Entry>, was: seq<Entry>)
    ensures Cut(byID, byID, was, 0)
  {
    assert byID - IdsOf(was[..0]) == byID;
  }

  lemma CutOne(before: map<string, Entry>, after: map<string, Entry>, was: seq<Entry>, k: nat)
    requires Cut(before, after, was, k) && k < |was|
    ensures Cut(before, after - {was[k].id}, was, k + 1)
  {
    assert was[..k + 1] == was[..k] + [was[k]];
    assert IdsOf(was[..k + 1]) == IdsOf(was[..k]) + {was[k].id} by {
      forall x | x in IdsOf(was[..k]) ensures x in IdsOf(was[..k + 1]) {
        var i :| 0 <= i < k && was[..k][i].id == x;
        assert was[..k + 1][i].id == x;
      }
      assert was[..k + 1][k].id == was[k].id;
      forall x | x in IdsOf(was[..k + 1]) && x != was[k].id ensures x in IdsOf(was[..k]) {
        var i :| 0 <= i < k + 1 && was[..k + 1][i].id == x;
        assert was[..k][i].id == x;
      }
    }
  }

  ghost predicate Unheld(entries: seq<Entry>, id: string) {
    forall e :: e in entries ==> e.id != id
  }

  lemma PlacedWithout(entries: seq<Entry>, log: seq<Entry>, pos: seq<nat>, i: nat)
    requires Placed(entries, log, pos) && i < |entries|
    ensures Placed(entries[..i] + entries[i + 1..], log, pos[..i] + pos[i + 1..])
  {}

  /** What has happened to the ring: the latest time seen, every token ever stored in order, where
      among them the live ones are, what became of the others, and whether no token was ever
      stored under the id of a live one. */
  datatype Past = Past(
    clock: int, log: seq<Entry>, pos: seq<nat>,
    taken: set<Entry>, evicted: set<Entry>, lapsed: set<Entry>, exact: bool)

  /** Every token ever stored is in exactly one place. */
  ghost predicate Accounted(entries: seq<Entry>, p: Past) {
    && (forall e :: e in p.log ==> e in entries || e in p.taken || e in p.evicted || e in p.lapsed)
    && (forall e :: e in entries ==> e in p.log && e !in p.taken && e !in p.evicted && e !in p.lapsed)
    && (forall e :: e in p.taken ==> e in p.log && e !in p.evicted && e !in p.lapsed)
    && (forall e :: e in p.evicted ==> e in p.log && e !in p.lapsed)
    && (forall e :: e in p.lapsed ==> e in p.log)
  }

  /** Nobody's window is longer than the TTL, and what lapsed had run out. */
  ghost predicate Timed(entries: seq<Entry>, p: Past) {
    && (forall e :: e in entries ==> e.expiresAt <= p.clock + TTL)
    && forall e :: e in p.lapsed ==> e.expiresAt <= p.clock
  }

  /** Of `stored` tokens, at least 64 came after each evicted one. */
  ghost predicate EvictedLate(p: Past, stored: nat) {
    forall e :: e in p.evicted ==> exists i :: 0 <= i < |p.log| && i < stored - 64 && p.log[i] == e
  }

  ghost predicate Recorded(entries: seq<Entry>, p: Past) {
    && |entries| <= CAPACITY && Ordered(entries)
    && Distinct(p.log) && Placed(entries, p.log, p.pos) && Accounted(entries, p) && Timed(entries, p)
  }

  ghost predicate Kept(entries: seq<Entry>, byID: map<string, Entry>, p: Past) {
    Linked(entries, byID, p.exact) && Recorded(entries, p) && EvictedLate(p, |p.log|)
  }

  datatype Fate = Handed | Evicted | Lapsed

  ghost function Rest<T>(s: seq<T>, i: nat): seq<T>
    requires i < |s|
  {
    s[..i] + s[i + 1..]
  }

  /** The past after entry i has gone. */
  ghost function Gone(p: Past, e: Entry, i: nat, fate: Fate): Past
    requires i < |p.pos|
  {
    var q := p.(pos := Rest(p.pos, i));
    match fate
    case Handed => q.(taken := q.taken + {e})
    case Evicted => q.(evicted := q.evicted + {e})
    case Lapsed => q.(lapsed := q.lapsed + {e})
  }

  ghost function Dropped(p: Past): set<Entry> {
    p.evicted + p.lapsed
  }

  lemma RestMembers(entries: seq<Entry>, i: nat)
    requires Distinct(entries) && i < |entries|
    ensures forall e :: e in Rest(entries, i) ==> e in entries && e != entries[i]
    ensures forall e :: e in entries && e != entries[i] ==> e in Rest(entries, i)
  {
    var rest := Rest(entries, i);
    forall e | e in entries && e != entries[i] ensures e in rest {
      var j :| 0 <= j < |entries| && entries[j] == e;
      assert rest[if j < i then j else j - 1] == e;
    }
  }

  lemma GoneAccounted(entries: seq<Entry>, p: Past, i: nat, fate: Fate)
    requires Accounted(entries, p) && Distinct(entries) && i < |entries| == |p.pos|
    ensures Accounted(Rest(entries, i), Gone(p, entries[i], i, fate))
  {
    RestMembers(entries, i);
  }

  lemma GoneTimed(entries: seq<Entry>, p: Past, i: nat, fate: Fate)
    requires Timed(entries, p) && Distinct(entries) && i < |entries| == |p.pos|
    requires fate == Lapsed ==> entries[i].expiresAt <= p.clock
    ensures Timed(Rest(entries, i), Gone(p, entries[i], i, fate))
  {
    RestMembers(entries, i);
  }

  lemma OrderedWithout(entries: seq<Entry>, i: nat)
    requires Ordered(entries) && i < |entries|
    ensures Ordered(Rest(entries, i))
  {}

  /** Removing an entry keeps the records, if the fate recorded for it is true. */
  lemma GoneRecorded(entries: seq<Entry>, p: Past, i: nat, fate: Fate)
    requires Recorded(entries, p) && i < |entries|
    requires fate == Lapsed ==> entries[i].expiresAt <= p.clock
    ensures Recorded(Rest(entries, i), Gone(p, entries[i], i, fate))
  {
    PlacedDistinct(entries, p.log, p.pos);
    GoneAccounted(entries, p, i, fate);
    PlacedWithout(entries, p.log, p.pos, i);
    OrderedWithout(entries, i);
    GoneTimed(entries, p, i, fate);
  }

  lemma DropKeeps(entries: seq<Entry>, byID: map<string, Entry>, p: Past, fate: Fate)
    requires Linked(entries, byID, p.exact) && Recorded(entries, p) && entries != [] && fate != Handed
    requires fate == Lapsed ==> entries[0].expiresAt <= p.clock
    ensures var q := Gone(p, entries[0], 0, fate);
            && Linked(entries[1..], byID - {entries[0].id}, q.exact) && Recorded(entries[1..], q)
            && q.log == p.log && Dropped(q) == Dropped(p) + {entries[0]}
  {
    assert Rest(entries, 0) == entries[1..];
    LinkedWithout(entries, byID, p.exact, 0);
    GoneRecorded(entries, p, 0, fate);
  }

  lemma EvictionIsLate(entries: seq<Entry>, p: Past)
    requires Recorded(entries, p) && EvictedLate(p, |p.log|) && |entries| == CAPACITY
    ensures EvictedLate(Gone(p, entries[0], 0, Evicted), |p.log| + 1)
  {
    OldestOfFull(entries, p.log, p.pos);
    var q := Gone(p, entries[0], 0, Evicted);
    assert p.log[p.pos[0]] == entries[0];
    forall e | e in q.evicted ensures exists i :: 0 <= i < |q.log| && i < |p.log| + 1 - 64 && q.log[i] == e {
      if e in p.evicted {
        var i :| 0 <= i < |p.log| && i < |p.log| - 64 && p.log[i] == e;
        assert q.log[i] == e;
      }
    }
  }

  ghost function Added(p: Past, e: Entry, unheld: bool): Past {
    p.(pos := p.pos + [|p.log|], log := p.log + [e], exact := p.exact && unheld)
  }

  lemma AddedRecorded(entries: seq<Entry>, p: Past, e: Entry, unheld: bool)
    requires Recorded(entries, p) && |entries| < CAPACITY && e !in p.log && e.expiresAt == p.clock + TTL
    ensures e !in entries && e !in p.evicted && e !in p.lapsed && Recorded(entries + [e], Added(p, e, unheld))
  {
    assert Accounted(entries + [e], Added(p, e, unheld));
  }

  lemma AddedEvictedLate(p: Past, e: Entry, unheld: bool)
    requires EvictedLate(p, |p.log| + 1)
    ensures EvictedLate(Added(p, e, unheld), |p.log| + 1)
  {
    var q := Added(p, e, unheld);
    forall x | x in q.evicted ensures exists i :: 0 <= i < |q.log| && i < |p.log| + 1 - 64 && q.log[i] == x {
      var i :| 0 <= i < |p.log| && i < |p.log| + 1 - 64 && p.log[i] == x;
      assert q.log[i] == x;
    }
  }

  ghost predicate Unspent(e: Entry, p: Past, now: int) {
    e !in p.taken && e !in p.evicted && now < e.expiresAt
  }

  /** A stored token unspent in its window is the live entry of its id. */
  lemma UnspentIsLive(entries: seq<Entry>, byID: map<string, Entry>, p: Past, now: int)
    requires Kept(entries, byID, p) && p.clock <= now && p.exact
    ensures forall e :: e in p.log && Unspent(e, p, now) ==> e.id in byID && byID[e.id] == e
  {
    forall e | e in p.log && Unspent(e, p, now) ensures e.id in byID && byID[e.id] == e {
      assert e in entries;
    }
  }

  lemma TimePasses(entries: seq<Entry>, byID: map<string, Entry>, p: Past, now: int)
    requires Kept(entries, byID, p) && p.clock <= now
    ensures Kept(entries, byID, p.(clock := now))
  {}

  /** The first k of the entries, all expired, are gone. */
  ghost predicate Swept(was: seq<Entry>, entries: seq<Entry>, k: nat, now: int) {
    k <= |was| && entries == was[k..] && forall i :: 0 <= i < k ==> was[i].expiresAt <= now
  }

  lemma SweepOne(was: seq<Entry>, entries: seq<Entry>, k: nat, now: int)
    requires Swept(was, entries, k, now) && entries != [] && entries[0].expiresAt <= now
    ensures k < |was| && entries[0] == was[k] && entries[0] in was && Swept(was, entries[1..], k + 1, now)
  {}

  lemma NoneExpired(entries: seq<Entry>, now: int)
    requires Ordered(entries) && (entries == [] || now < entries[0].expiresAt)
    ensures forall e :: e in entries ==> now < e.expiresAt
  {}

  /** Only time passed and tokens lapsed. */
  ghost predicate OnlyLapsed(p: Past, q: Past) {
    q == p.(clock := q.clock, pos := q.pos, lapsed := q.lapsed)
  }

  lemma TakeKeeps(entries: seq<Entry>, byID: map<string, Entry>, p: Past, at: nat, fate: Fate)
    requires Kept(entries, byID, p) && at < |entries| && fate != Evicted
    requires fate == Lapsed ==> entries[at].expiresAt <= p.clock
    ensures Kept(Rest(entries, at), byID - {entries[at].id}, Gone(p, entries[at], at, fate))
  {
    LinkedWithout(entries, byID, p.exact, at);
    GoneRecorded(entries, p, at, fate);
  }

  class Ring {
    var entries: seq<Entry>
    var byID: map<string, Entry>
    ghost var past: Past

    /** What was dropped holds nothing any more; what is live or was handed out is intact. */
    ghost predicate Scrubbed() reads this, past.log {
      forall e :: e in past.log ==> e.payload == if e in Dropped(past) then NIL else e.given
    }

    ghost predicate Valid() reads this, past.log {
      Kept(entries, byID, past) && Scrubbed()
    }

    constructor ()
      ensures Valid() && entries == [] && byID == map[] && past == Past(0, [], [], {}, {}, {}, true)
    {
      entries, byID := [], map[];
      past := Past(0, [], [], {}, {}, {}, true);
    }

    /** Removes the oldest entry from both indexes and scrubs it. */
    method DropOldest(ghost fate: Fate)
      requires Linked(entries, byID, past.exact) && Recorded(entries, past) && Scrubbed() && |entries| > 0
      requires fate != Handed
      requires fate == Lapsed ==> entries[0].expiresAt <= past.clock
      modifies this, entries[0]
      ensures Linked(entries, byID, past.exact) && Recorded(entries, past) && Scrubbed()
      ensures past == Gone(old(past), old(entries)[0], 0, fate)
      ensures entries == old(entries)[1..] && byID == old(byID) - {old(entries)[0].id}
    {
      var oldest := entries[0];
      DropKeeps(entries, byID, past, fate);
      entries := entries[1..];
      past := Gone(past, oldest, 0, fate);
      byID := byID - {oldest.id};
      oldest.payload := NIL;
    }

    method DropExpired(ghost was: seq<Entry>, ghost map0: map<string, Entry>, ghost k: nat, now: int)
      requires Valid() && |entries| > 0 && entries[0].expiresAt <= past.clock == now
      requires Swept(was, entries, k, now) && Cut(map0, byID, was, k)
      modifies this, entries[0]
      ensures Valid() && past.clock == now && OnlyLapsed(old(past), past) && |entries| < |old(entries)|
      ensures Swept(was, entries, k + 1, now) && Cut(map0, byID, was, k + 1)
    {
      SweepOne(was, entries, k, now);
      CutOne(map0, byID, was, k);
      DropOldest(Lapsed);
    }

    /** Drops the first expired entries; as entries are in order of expiry, none is left. */
    method Sweep(now: int) returns (ghost k: nat)
      requires Valid() && past.clock <= now
      modifies this, entries
      ensures Valid() && past.clock == now && OnlyLapsed(old(past), past)
      ensures Swept(old(entries), entries, k, now) && Cut(old(byID), byID, old(entries), k)
      ensures forall e :: e in entries ==> now < e.expiresAt
    {
      ghost var was, map0 := entries, byID;
      TimePasses(entries, byID, past, now);
      past := past.(clock := now);
      k := 0;
      CutNone(byID, entries);
      while |entries| > 0 && entries[0].expiresAt <= now
        invariant Valid() && past.clock == now && OnlyLapsed(old(past), past)
        invariant Swept(was, entries, k, now) && Cut(map0, byID, was, k)
        decreases |entries|
      {
        DropExpired(was, map0, k, now);
        k := k + 1;
      }
      NoneExpired(entries, now);
    }

    /** Sweeps, and evicts the oldest of a ring still full. */
    method MakeRoom(now: int) returns (ghost k: nat)
      requires Valid() && past.clock <= now
      modifies this, entries
      ensures Linked(entries, byID, past.exact) && Recorded(entries, past) && EvictedLate(past, |past.log| + 1)
      ensures Scrubbed()
      ensures |entries| < CAPACITY && past.clock == now && past.log == old(past).log && past.taken == old(past).taken
      ensures past.exact == old(past).exact
      ensures Roomy(old(entries), entries, k, now, past.evicted - old(past).evicted)
      ensures Cut(old(byID), byID, old(entries), k)
    {
      k := Sweep(now);
      if |entries| >= CAPACITY {
        CutOne(old(byID), byID, old(entries), k);
        EvictionIsLate(entries, past);
        RoomByEviction(old(entries), entries, k, now, past);
        DropOldest(Evicted);
        k := k + 1;
      }
    }

    /** Inserts a token: sweeps, evicts the oldest of a full ring, appends. Two indexes that
        agreed still agree exactly when no other live token has the id. */
    method Store(id: string, tool: string, payload: Payload, now: int)
      returns (stored: string, ghost k: nat, ghost kept: seq<Entry>)
      requires Valid() && past.clock <= now
      modifies this, entries
      ensures Valid() && stored == id && past.exact == (old(past).exact && Unheld(kept, id))
      ensures old(past).exact ==> (Agree(entries, byID) <==> Unheld(kept, id))
      ensures |entries| == |kept| + 1 && entries == kept + [entries[|kept|]]
      ensures past.log == old(past).log + [entries[|kept|]]
      ensures fresh(entries[|kept|]) && IsToken(entries[|kept|], id, tool, payload, now)
      ensures |entries| <= 64 && entries[|kept|].expiresAt == now + 15 * 60
      ensures past.taken == old(past).taken && past.clock == now
      ensures Roomy(old(entries), kept, k, now, past.evicted - old(past).evicted)
      ensures byID == (old(byID) - IdsOf(old(entries)[..k]))[id := entries[|kept|]]
    {
      k := MakeRoom(now);
      kept := entries;
      ghost var made := past;
      AppendEntry(id, tool, payload, now);
      AddedEvictedLate(made, entries[|kept|], Unheld(kept, id));
      stored := id;
    }

    method AppendEntry(id: string, tool: string, payload: Payload, now: int)
      requires Linked(entries, byID, past.exact) && Recorded(entries, past) && Scrubbed() && |entries| < CAPACITY
      requires past.clock == now
      modifies this
      ensures Linked(entries, byID, past.exact) && Recorded(entries, past) && Scrubbed()
      ensures |entries| == |old(entries)| + 1 && entries == old(entries) + [entries[|old(entries)|]]
      ensures var e := entries[|old(entries)|];
              && fresh(e) && IsToken(e, id, tool, payload, now)
              && past == Added(old(past), e, Unheld(old(entries), id))
      ensures old(past).exact ==> (Agree(entries, byID) <==> Unheld(old(entries), id))
      ensures byID == old(byID)[id := entries[|old(entries)|]]
    {
      var entry := new Entry(id, tool, payload, now + TTL);
      AddedRecorded(entries, past, entry, Unheld(entries, id));
      LinkedAppend(entries, byID, past.exact, entry);
      if past.exact { AgreeAppend(entries, byID, entry); }
      past := Added(past, entry, Unheld(entries, id));
      entries := entries + [entry];
      byID := byID[id := entry];
    }

    method RemoveEntry(entry: Entry) returns (ghost at: nat)
      requires entry in entries
      modifies this`entries
      ensures at < |old(entries)| && old(entries)[at] == entry && entries == Rest(old(entries), at)
    {
      var i := 0;
      while entries[i] != entry
        invariant entries == old(entries) && 0 <= i < |entries| && entry in entries[i..]
        decreases |entries| - i
      {
        i := i + 1;
      }
      at := i;
      entries := entries[..i] + entries[i + 1..];
    }

    /** Removes a live entry from both indexes. */
    method RemoveLive(entry: Entry, ghost fate: Fate)
      requires Valid() && entry in entries && fate != Evicted
      requires fate == Lapsed ==> entry.expiresAt <= past.clock
      modifies this
      ensures Kept(entries, byID, past) && byID == old(byID) - {entry.id} && WentTo(old(past), past, entry, fate)
    {
      byID := byID - {entry.id};
      ghost var at := RemoveEntry(entry);
      TakeKeeps(old(entries), old(byID), past, at, fate);
      past := Gone(past, entry, at, fate);
    }

    /** Hands a token out exactly when it was stored, is not taken, not evicted, and still in
        its window; then it is gone. A token past its window is scrubbed. */
    method Take(id: string, now: int) returns (r: Taken, ghost e: Option<Entry>)
      requires Valid() && past.clock <= now
      modifies this, entries
      ensures Valid() && past.clock == now && past.log == old(past).log && past.evicted == old(past).evicted
      ensures byID == old(byID) - {id} && (r == NotFound <==> id !in old(byID))
      ensures past.exact == old(past).exact
      ensures past.exact ==>
                forall x :: x in old(past).log && x.id == id && Unspent(x, old(past), now) ==> r.Token? && e == Some(x)
      ensures r.Token? ==> e.Some? && e.value in old(past).log && Unspent(e.value, old(past), now)
                           && r == Token(id, e.value.tool, e.value.given) && e.value.id == id
                           && past.taken == old(past).taken + {e.value}
      ensures !r.Token? ==> past.taken == old(past).taken
    {
      if past.exact { UnspentIsLive(entries, byID, past, now); }
      TimePasses(entries, byID, past, now);
      past := past.(clock := now);
      if id !in byID {
        assert byID - {id} == byID;
        return NotFound, None;
      }
      var entry := byID[id];
      r := TakeEntry(entry, now);
      return r, Some(entry);
    }

    /** Takes a live entry out, handing it out if it is still in its window. */
    method TakeEntry(entry: Entry, now: int) returns (r: Taken)
      requires Valid() && entry in entries && past.clock == now
      modifies this, entry
      ensures Valid() && byID == old(byID) - {entry.id}
      ensures WentTo(old(past), past, entry, if entry.expiresAt <= now then Lapsed else Handed)
      ensures r == if entry.expiresAt <= now then Expired(entry.tool) else Token(entry.id, entry.tool, entry.given)
    {
      RemoveLive(entry, if entry.expiresAt <= now then Lapsed else Handed);
      if entry.expiresAt <= now {
        entry.payload := NIL;
        return Expired(entry.tool);
      }
      return Token(entry.id, entry.tool, entry.payload);
    }
  }

  /** The past but for one entry that met its fate. */
  ghost predicate WentTo(p: Past, q: Past, e: Entry, fate: Fate) {
    && q.clock == p.clock && q.log == p.log && q.evicted == p.evicted && q.exact == p.exact
    && q.taken == (if fate == Handed then p.taken + {e} else p.taken)
    && q.lapsed == (if fate == Handed then p.lapsed else p.lapsed + {e})
  }

  ghost predicate IsToken(e: Entry, id: string, tool: string, payload: Payload, now: int) {
    e.id == id && e.tool == tool && e.given == payload && e.expiresAt == now + TTL
  }

  /** The first k entries are gone. All had expired, unless the ring was full of unexpired ones
      and lost the oldest of these. */
  ghost predicate Roomy(was: seq<Entry>, entries: seq<Entry>, k: nat, now: int, evicted: set<Entry>) {
    && k <= |was| && entries == was[k..]
    && (forall e :: e in entries ==> now < e.expiresAt)
    && (forall i :: 0 <= i < k && was[i] !in evicted ==> was[i].expiresAt <= now)
    && (evicted == {} || (k > 0 && evicted == {was[k - 1]} && now < was[k - 1].expiresAt && |entries| == 63))
  }

  lemma RoomByEviction(was: seq<Entry>, entries: seq<Entry>, k: nat, now: int, p: Past)
    requires Swept(was, entries, k, now) && |entries| == CAPACITY && entries[0] !in p.evicted
    requires forall e :: e in entries ==> now < e.expiresAt
    ensures Roomy(was, entries[1..], k + 1, now, (p.evicted + {entries[0]}) - p.evicted)
  {}

  /** Why a live id must not be reused: of two tokens of one id, the older takes the newer out of
      the map when its window ends. The newer one is then neither taken nor evicted, still in its
      window, and not to be had. */
  method ReuseLosesTheNewer(id: string, other: string, tool: string, payload: Payload)
    returns (r: Taken, ghost ring: Ring, ghost newer: Entry)
    requires id != other
    ensures r == NotFound
    ensures newer in ring.past.log && IsToken(newer, id, tool, payload, 1) && Unspent(newer, ring.past, TTL)
  {
    var ring';
    ring', newer := StoreTwice(id, tool, payload);
    StoreThird(ring', id, other, tool, payload);
    ghost var e;
    r, e := ring'.Take(id, TTL);
    ring := ring';
  }

  /** Two tokens under one id, a second apart. */
  method StoreTwice(id: string, tool: string, payload: Payload) returns (ring: Ring, ghost newer: Entry)
    ensures fresh(ring) && fresh(ring.entries) && ring.Valid() && Untouched(ring.entries, ring.past)
    ensures |ring.entries| == 2 && ring.past.clock == 1 && newer == ring.entries[1]
    ensures IsToken(ring.entries[0], id, tool, payload, 0) && IsToken(newer, id, tool, payload, 1)
  {
    ring := new Ring();
    StoreOneMore(ring, id, tool, payload, 0);
    StoreOneMore(ring, id, tool, payload, 1);
    newer := ring.entries[1];
  }

  /** Nothing has gone yet: the entries are all that was ever stored. */
  ghost predicate Untouched(entries: seq<Entry>, p: Past) {
    p.log == entries && p.taken == {} && p.evicted == {}
  }

  /** Storing before any window ends, in a ring that is not full, only appends. */
  method StoreOneMore(ring: Ring, id: string, tool: string, payload: Payload, now: int)
    requires ring.Valid() && Untouched(ring.entries, ring.past) && |ring.entries| < 64 && ring.past.clock <= now
    requires InWindow(ring.entries, now)
    modifies ring, ring.entries
    ensures ring.Valid() && Untouched(ring.entries, ring.past) && ring.past.clock == now
    ensures |ring.entries| == |old(ring.entries)| + 1
    ensures var e := ring.entries[|old(ring.entries)|];
            && fresh(e) && IsToken(e, id, tool, payload, now)
            && ring.entries == old(ring.entries) + [e] && ring.byID == old(ring.byID)[id := e]
  {
    var stored;
    ghost var k, kept;
    ghost var was, map0, gone := ring.entries, ring.byID, ring.past.evicted;
    stored, k, kept := ring.Store(id, tool, payload, now);
    OnlyAppended(was, kept, k, now, ring.past.evicted, gone, map0);
  }

  ghost predicate InWindow(entries: seq<Entry>, now: int) {
    forall i :: 0 <= i < |entries| ==> now < entries[i].expiresAt
  }

  lemma OnlyAppended(was: seq<Entry>, kept: seq<Entry>, k: nat, now: int, evicted: set<Entry>, before: set<Entry>,
                     byID: map<string, Entry>)
    requires Roomy(was, kept, k, now, evicted - before) && before == {} && |was| < 64 && InWindow(was, now)
    ensures kept == was && evicted == {} && byID - IdsOf(was[..k]) == byID
  {
    assert evicted - before == evicted;
    NobodyGoes(was, kept, k, now, evicted);
  }

  /** Storing when the older of two windows has ended. */
  method StoreThird(ring: Ring, id: string, other: string, tool: string, payload: Payload)
    requires ring.Valid() && Untouched(ring.entries, ring.past) && |ring.entries| == 2 && ring.past.clock <= TTL
    requires ring.entries[0].id == id != other && ring.entries[0].expiresAt <= TTL < ring.entries[1].expiresAt
    modifies ring, ring.entries
    ensures ring.Valid() && id !in ring.byID && ring.past.clock == TTL
    ensures old(ring.entries)[1] in ring.past.log && ring.past.taken == {} && ring.past.evicted == {}
    ensures forall e :: e in ring.entries ==> e == old(ring.entries)[1] || fresh(e)
  {
    var stored;
    ghost var k, kept;
    ghost var was, map0 := ring.entries, ring.byID;
    stored, k, kept := ring.Store(other, tool, payload, TTL);
    ThirdStored(was, kept, k, ring.past.evicted, map0, id, other, ring.entries[|kept|]);
  }

  lemma ThirdStored(was: seq<Entry>, kept: seq<Entry>, k: nat, evicted: set<Entry>, byID: map<string, Entry>,
                    id: string, other: string, e: Entry)
    requires |was| == 2 && was[0].id == id != other && was[0].expiresAt <= TTL < was[1].expiresAt
    requires Roomy(was, kept, k, TTL, evicted - {})
    ensures id !in (byID - IdsOf(was[..k]))[other := e] && evicted == {} && kept == [was[1]]
  {
    assert evicted - {} == evicted;
    OnlyTheOlderGoes(was, kept, k, TTL, evicted);
    FirstIdGoes(byID, was, id, other, e);
  }

  lemma FirstIdGoes(byID: map<string, Entry>, was: seq<Entry>, id: string, other: string, e: Entry)
    requires was != [] && was[0].id == id != other
    ensures id !in (byID - IdsOf(was[..1]))[other := e]
  {
    assert was[..1][0].id == id;
  }

  lemma LastOneGone(was: seq<Entry>, kept: seq<Entry>, k: nat, now: int, evicted: set<Entry>)
    requires Roomy(was, kept, k, now, evicted) && k > 0
    ensures was[k - 1].expiresAt <= now || |kept| == 63
  {
    assert was[k - 1] !in evicted ==> was[k - 1].expiresAt <= now;
  }

  lemma NobodyGoes(was: seq<Entry>, kept: seq<Entry>, k: nat, now: int, evicted: set<Entry>)
    requires Roomy(was, kept, k, now, evicted) && |was| < 64
    requires InWindow(was, now)
    ensures k == 0 && kept == was && evicted == {} && IdsOf(was[..k]) == {}
  {
    if k > 0 { LastOneGone(was, kept, k, now, evicted); }
  }

  lemma OnlyTheOlderGoes(was: seq<Entry>, kept: seq<Entry>, k: nat, now: int, evicted: set<Entry>)
    requires Roomy(was, kept, k, now, evicted) && |was| == 2 && was[0].expiresAt <= now < was[1].expiresAt
    ensures k == 1 && kept == [was[1]] && evicted == {}
  {}
}
