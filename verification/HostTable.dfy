/** The cache of host objects: hash buckets that should look like one flat list without
    duplicate keys. Lists are in order of creation. */
module HostTables {
  import opened Common

  const PASSIVE_TIMEOUT := 120

  class HostInfo {
    const hostname: string
    const port: nat
    const ntime: int              // when the object was created
    var idle: bool                // no request in the pipeline
    var channel: bool
    var expires: int

    constructor (hostname: string, port: nat, now: int)
      ensures this.hostname == hostname && this.port == port && ntime == now && idle && !channel
    {
      this.hostname, this.port, ntime := hostname, port, now;
      idle, channel, expires := true, false, 0;
    }

    /** A cached object is used again: only a channel that has gone cold is given up, any other one
        with a time limit gets a new one. */
    method Reuse(now: int)
      modifies this`channel, this`expires
      ensures channel <==> old(channel) && !(idle && 0 < old(expires) < now)
      ensures expires == if old(channel) && idle && 0 < old(expires) < now then 0
                         else if channel && old(expires) > 0 then now + PASSIVE_TIMEOUT
                         else old(expires)
    {
      if channel && expires > 0 {
        if idle && expires < now {
          channel, expires := false, 0;
        } else {
          expires := now + PASSIVE_TIMEOUT;
        }
      }
    }
  }

  // ----- hashing

  function Hash(name: string, size: nat): (h: nat)
    requires size > 0
    ensures h < size
  {
    if name == "" then 0 else (Hash(name[..|name| - 1], size) * 3 + name[|name| - 1] as int) % size
  }

  method ComputeHash(name: string, size: nat) returns (hash: nat)
    requires size > 0
    ensures hash == Hash(name, size)
  {
    hash := 0;
    for i := 0 to |name|
      invariant hash == Hash(name[..i], size)
    {
      assert name[..i + 1][..i] == name[..i];
      hash := (hash * 3 + name[i] as int) % size;
    }
    assert name[..|name|] == name;
  }

  // ----- the flat list

  predicate SameKey(h: HostInfo, name: string, port: nat) {
    h.hostname == name && h.port == port
  }

  /** No two objects for the same host and port. */
  ghost predicate KeysDistinct(all: seq<HostInfo>) {
    forall i, j | 0 <= i < j < |all| :: !SameKey(all[i], all[j].hostname, all[j].port)
  }

  /** The newest object for a host name, whatever its port. */
  function Newest(all: seq<HostInfo>, name: string): (r: Option<HostInfo>)
    ensures r.Some? ==> r.value in all && r.value.hostname == name
    ensures r.None? ==> forall h | h in all :: h.hostname != name
  {
    if all == [] then None
    else
      var last := all[|all| - 1];
      if last.hostname == name then Some(last)
      else
        assert all == all[..|all| - 1] + [last];
        Newest(all[..|all| - 1], name)
  }

  function Lookup(all: seq<HostInfo>, name: string, port: nat): (r: Option<HostInfo>)
    ensures r.Some? ==> r.value in all && SameKey(r.value, name, port)
    ensures r.None? ==> forall h | h in all :: !SameKey(h, name, port)
  {
    if all == [] then None
    else
      var last := all[|all| - 1];
      if SameKey(last, name, port) then Some(last)
      else
        assert all == all[..|all| - 1] + [last];
        Lookup(all[..|all| - 1], name, port)
  }

  /** Removing the newest occurrence. */
  function Removed<T(==)>(all: seq<T>, x: T): seq<T> {
    if all == [] then []
    else
      var last := all[|all| - 1];
      if last == x then all[..|all| - 1] else Removed(all[..|all| - 1], x) + [last]
  }

  /** The part of the flat list that belongs into bucket b. */
  function InBucket(all: seq<HostInfo>, b: nat, size: nat): seq<HostInfo>
    requires size > 0
  {
    if all == [] then []
    else
      var last := all[|all| - 1];
      InBucket(all[..|all| - 1], b, size) + if Hash(last.hostname, size) == b then [last] else []
  }

  lemma {:induction false} NewestInBucket(all: seq<HostInfo>, name: string, size: nat)
    requires size > 0
    ensures Newest(InBucket(all, Hash(name, size), size), name) == Newest(all, name)
  {
    if all != [] {
      var init, last := all[..|all| - 1], all[|all| - 1];
      NewestInBucket(init, name, size);
      var b := InBucket(init, Hash(name, size), size);
      assert (b + [last])[..|b|] == b && b + [] == b;
    }
  }

  lemma {:induction false} LookupInBucket(all: seq<HostInfo>, name: string, port: nat, size: nat)
    requires size > 0
    ensures Lookup(InBucket(all, Hash(name, size), size), name, port) == Lookup(all, name, port)
  {
    if all != [] {
      var init, last := all[..|all| - 1], all[|all| - 1];
      LookupInBucket(init, name, port, size);
      var b := InBucket(init, Hash(name, size), size);
      assert (b + [last])[..|b|] == b && b + [] == b;
    }
  }

  lemma AddedToBucket(all: seq<HostInfo>, h: HostInfo, b: nat, size: nat)
    requires size > 0
    ensures InBucket(all + [h], b, size)
         == if Hash(h.hostname, size) == b then InBucket(all, b, size) + [h] else InBucket(all, b, size)
  {}

  /** An object sits in the bucket of its hash and in no other. */
  lemma {:induction false} BucketMembers(all: seq<HostInfo>, h: HostInfo, b: nat, size: nat)
    requires size > 0
    ensures h in InBucket(all, b, size) <==> h in all && Hash(h.hostname, size) == b
  {
    if all != [] {
      var init, last := all[..|all| - 1], all[|all| - 1];
      assert all == init + [last];
      BucketMembers(init, h, b, size);
      AddedToBucket(init, last, b, size);
    }
  }

  lemma RemovedLast<T>(all: seq<T>, last: T, x: T)
    ensures Removed(all + [last], x) == if last == x then all else Removed(all, x) + [last]
  {}

  /** Removing an object from its bucket removes it from the flat list. */
  lemma {:induction false} RemovedFromBucket(all: seq<HostInfo>, h: HostInfo, b: nat, size: nat)
    requires size > 0
    ensures InBucket(Removed(all, h), b, size)
         == if Hash(h.hostname, size) == b then Removed(InBucket(all, b, size), h) else InBucket(all, b, size)
  {
    if all != [] {
      hide InBucket, Removed, Hash;
      var init, last := all[..|all| - 1], all[|all| - 1];
      assert all == init + [last];
      RemovedFromBucket(init, h, b, size);
      AddedToBucket(init, last, b, size);
      AddedToBucket(Removed(init, h), last, b, size);
      RemovedLast(init, last, h);
      RemovedLast(InBucket(init, b, size), last, h);
    }
  }

  lemma AddedDistinct(all: seq<HostInfo>, h: HostInfo)
    requires KeysDistinct(all) && forall g | g in all :: !SameKey(g, h.hostname, h.port)
    ensures KeysDistinct(all + [h])
  {}

  lemma {:induction false} RemovedMembers(all: seq<HostInfo>, h: HostInfo)
    requires KeysDistinct(all) && h in all
    ensures KeysDistinct(Removed(all, h))
    ensures forall g | g in Removed(all, h) :: g in all && g != h
    ensures forall g | g in all && g != h :: g in Removed(all, h)
  {
    var init, last := all[..|all| - 1], all[|all| - 1];
    assert all == init + [last];
    assert forall g | g in init :: !SameKey(g, last.hostname, last.port);
    if last != h {
      RemovedMembers(init, h);
      var r := Removed(init, h);
      assert forall g | g in r :: g in init;
      AddedDistinct(r, last);
    }
  }

  // ----- the table

  class HostTable {
    const size: nat
    const timeout: int
    var table: array?<seq<HostInfo>>
    ghost var all: seq<HostInfo>

    constructor (size: nat, timeout: int)
      requires size > 0
      ensures this.size == size && this.timeout == timeout && Valid() && all == [] && table == null
    {
      this.size, this.timeout, table, all := size, timeout, null, [];
    }

    /** The buckets agree with the flat list. */
    ghost predicate Valid()
      reads this, table
    {
      && size > 0 && KeysDistinct(all)
      && if table == null then all == []
         else table.Length == size && forall b | 0 <= b < size :: table[b] == InBucket(all, b, size)
    }

    lemma KeysAreDistinct()
      requires Valid()
      ensures KeysDistinct(all)
    {}

    predicate Expired(h: HostInfo, now: int) {
      now > h.ntime + timeout
    }

    /** Take h out of its bucket. */
    method DeleteObject(hash: nat, h: HostInfo)
      requires Valid() && table != null && h in all && hash == Hash(h.hostname, size)
      modifies this`all, table
      ensures Valid() && all == Removed(old(all), h)
    {
      hide Hash, Removed, InBucket, KeysDistinct;
      RemovedMembers(all, h);
      forall b: nat | b < size { RemovedFromBucket(all, h, b, size); }
      table[hash] := Removed(table[hash], h);
      all := Removed(all, h);
    }

    /** The first call makes the table. */
    method Allocate()
      requires Valid()
      modifies this`table
      ensures Valid() && table != null && (table == old(table) || fresh(table))
    {
      if table == null {
        table := new seq<HostInfo>[size](_ => []);
      }
    }

    method AddObject(hash: nat, h: HostInfo)
      requires Valid() && table != null && hash == Hash(h.hostname, size)
      requires forall g | g in all :: !SameKey(g, h.hostname, h.port)
      modifies this`all, table
      ensures Valid() && all == old(all) + [h]
    {
      hide Hash, InBucket, KeysDistinct;
      AddedDistinct(all, h);
      forall b: nat | b < size { AddedToBucket(all, h, b, size); }
      table[hash] := table[hash] + [h];
      all := all + [h];
    }

    /** Search a bucket for a host and port, newest object first. */
    method SearchKey(hash: nat, host: string, port: nat) returns (pres: Option<HostInfo>)
      requires Valid() && table != null && hash == Hash(host, size)
      ensures pres == Lookup(all, host, port)
    {
      hide InBucket, KeysDistinct, Hash;
      var list := table[hash];
      LookupInBucket(all, host, port, size);
      var i := |list|;
      assert list[..i] == list;
      while i > 0
        invariant 0 <= i <= |list| && Lookup(list[..i], host, port) == Lookup(list, host, port)
      {
        pres := Some(list[i - 1]);
        assert list[..i][..i - 1] == list[..i - 1];
        if SameKey(pres.value, host, port) {
          return;
        }
        i := i - 1;
      }
      pres := None;
    }

    /** Search a bucket for a host, newest object first. */
    method SearchName(hash: nat, host: string) returns (pres: Option<HostInfo>)
      requires Valid() && table != null && hash == Hash(host, size)
      ensures pres == Newest(all, host)
    {
      hide InBucket, KeysDistinct, Hash;
      var list := table[hash];
      NewestInBucket(all, host, size);
      var i := |list|;
      assert list[..i] == list;
      while i > 0
        invariant 0 <= i <= |list| && Newest(list[..i], host) == Newest(list, host)
      {
        pres := Some(list[i - 1]);
        assert list[..i][..i - 1] == list[..i - 1];
        if pres.value.hostname == host {
          return;
        }
        i := i - 1;
      }
      pres := None;
    }

    /** HTHost_new: the object for the key; an idle expired one is collected and made anew. */
    method New(host: string, port: nat, now: int) returns (pres: HostInfo)
      requires Valid()
      modifies this, table, all`channel, all`expires
      ensures Valid() && SameKey(pres, host, port) && pres in all
      ensures var found := Lookup(old(all), host, port);
              if found.None? then fresh(pres) && pres.ntime == now && all == old(all) + [pres]
              else if old(found.value.idle) && now > found.value.ntime + timeout then
                fresh(pres) && pres.ntime == now && all == Removed(old(all), found.value) + [pres]
              else
                && pres == found.value && all == old(all)
                && (pres.channel <==>
                      old(found.value.channel && !(found.value.idle && 0 < found.value.expires < now)))
                && (pres.channel && old(found.value.expires) > 0 ==> pres.expires == now + PASSIVE_TIMEOUT)
      ensures forall h | h in old(all) && h != pres :: unchanged(h)
      ensures table == old(table) || fresh(table)
    {
      hide Hash, Removed, InBucket, Lookup;
      var hash := ComputeHash(host, size);
      Allocate();
      var found := SearchKey(hash, host, port);
      if found.Some? && found.value.idle && Expired(found.value, now) {
        Collected(all, found.value);
        DeleteObject(hash, found.value);
        found := None;
      }
      if found.Some? {
        pres := found.value;
        pres.Reuse(now);
      } else {
        pres := new HostInfo(host, port, now);
        AddObject(hash, pres);
      }
    }

    /** HTHost_find: the newest object for the host name, unless it has expired. */
    method Find(host: string, now: int) returns (pres: Option<HostInfo>)
      requires Valid()
      modifies this`all, table
      ensures Valid()
      ensures var found := Newest(old(all), host);
              if found.Some? && now > found.value.ntime + timeout then
                pres == None && all == Removed(old(all), found.value)
              else pres == found && all == old(all)
    {
      hide Hash, Removed, InBucket, KeysDistinct;
      pres := None;
      if table != null {
        var hash := ComputeHash(host, size);
        pres := SearchName(hash, host);
        if pres.Some? && Expired(pres.value, now) {
          DeleteObject(hash, pres.value);
          pres := None;
        }
      }
    }

    /** Requests come and go: the object for a key, if there is one, becomes idle or busy. */
    method SetIdle(host: string, port: nat, idle: bool)
      requires Valid()
      modifies all`idle
      ensures Valid()
      ensures var found := Lookup(all, host, port);
              found.Some? ==> found.value.idle == idle
    {
      hide Hash, InBucket, Lookup;
      if table != null {
        var hash := ComputeHash(host, size);
        var found := SearchKey(hash, host, port);
        if found.Some? {
          found.value.idle := idle;
        }
      }
    }

    /** HTHost_deleteAll. */
    method DeleteAll()
      requires Valid()
      modifies this, table
      ensures Valid() && all == [] && table == null
    {
      if table == null {
        return;
      }
      for i := 0 to size
        invariant table == old(table) && table.Length == size
        invariant forall b | 0 <= b < i :: table[b] == []
      {
        while table[i] != []
          invariant table == old(table) && table.Length == size
          invariant forall b | 0 <= b < i :: table[b] == []
          decreases |table[i]|
        {
          table[i] := table[i][1..];
        }
      }
      table, all := null, [];
    }
  }

  /** Once h is removed no object has its key. */
  lemma Collected(all: seq<HostInfo>, h: HostInfo)
    requires KeysDistinct(all) && h in all
    ensures forall g | g in Removed(all, h) :: !SameKey(g, h.hostname, h.port)
  {}

  // ----- whole runs

  /** What is cached about a host. */
  datatype Entry = Entry(host: string, port: nat, ntime: int)

  /** A request for a host object, which finds the cached one idle or busy; a look-up; a clean-up. */
  datatype Op = New(host: string, port: nat, now: int, idle: bool) | Find(host: string, now: int) | DeleteAll

  /** A flat cache and the answer to the last call. */
  datatype Cache = Cache(entries: seq<Entry>, answer: Option<Entry>)

  function EntryOf(h: HostInfo): Entry {
    Entry(h.hostname, h.port, h.ntime)
  }

  function AnswerOf(h: Option<HostInfo>): Option<Entry> {
    if h.Some? then Some(EntryOf(h.value)) else None
  }

  function Entries(all: seq<HostInfo>): seq<Entry> {
    if all == [] then [] else Entries(all[..|all| - 1]) + [EntryOf(all[|all| - 1])]
  }

  function NewestEntry(entries: seq<Entry>, host: string): Option<Entry> {
    if entries == [] then None
    else
      var last := entries[|entries| - 1];
      if last.host == host then Some(last) else NewestEntry(entries[..|entries| - 1], host)
  }

  function EntryFor(entries: seq<Entry>, host: string, port: nat): (e: Option<Entry>)
    ensures e.Some? ==> e.value.host == host && e.value.port == port
  {
    if entries == [] then None
    else
      var last := entries[|entries| - 1];
      if last.host == host && last.port == port then Some(last) else EntryFor(entries[..|entries| - 1], host, port)
  }

  /** What a call does to a flat cache. */
  function Apply(entries: seq<Entry>, op: Op, timeout: int): Cache {
    match op
    case New(host, port, now, idle) =>
      var found, made := EntryFor(entries, host, port), Entry(host, port, now);
      if found.None? then Cache(entries + [made], Some(made))
      else if idle && now > found.value.ntime + timeout then
        Cache(Removed(entries, found.value) + [made], Some(made))
      else Cache(entries, found)
    case Find(host, now) =>
      var found := NewestEntry(entries, host);
      if found.Some? && now > found.value.ntime + timeout then Cache(Removed(entries, found.value), None)
      else Cache(entries, found)
    case DeleteAll => Cache([], None)
  }

  function After(ops: seq<Op>, timeout: int): Cache {
    if ops == [] then Cache([], None)
    else Apply(After(ops[..|ops| - 1], timeout).entries, ops[|ops| - 1], timeout)
  }

  /** Whatever is cached, a request for a host object is answered with one for its key. */
  lemma NewAnswersTheKey(entries: seq<Entry>, op: Op, timeout: int)
    requires op.New?
    ensures var answer := Apply(entries, op, timeout).answer;
            answer.Some? && answer.value.host == op.host && answer.value.port == op.port
  {}

  // ----- what the flat cache means

  /** The newest entry of a host is the last one with its name. */
  lemma {:induction false} NewestIsLast(entries: seq<Entry>, host: string, i: nat)
    requires i < |entries| && entries[i].host == host
    requires forall j | i < j < |entries| :: entries[j].host != host
    ensures NewestEntry(entries, host) == Some(entries[i])
  {
    if i < |entries| - 1 {
      NewestIsLast(entries[..|entries| - 1], host, i);
    }
  }

  lemma {:induction false} NoneOfHost(entries: seq<Entry>, host: string)
    requires forall j | 0 <= j < |entries| :: entries[j].host != host
    ensures NewestEntry(entries, host).None?
  {
    if entries != [] {
      NoneOfHost(entries[..|entries| - 1], host);
    }
  }

  /** With distinct keys the entry for a key is the one that has it. */
  lemma {:induction false} EntryForKey(entries: seq<Entry>, i: nat)
    requires EntriesDistinct(entries) && i < |entries|
    ensures EntryFor(entries, entries[i].host, entries[i].port) == Some(entries[i])
  {
    if i < |entries| - 1 {
      EntryForKey(entries[..|entries| - 1], i);
    }
  }

  /** Removing takes out the newest occurrence and nothing else. */
  lemma {:induction false} RemovedAt<T>(all: seq<T>, i: nat)
    requires i < |all| && all[i] !in all[i + 1..]
    ensures Removed(all, all[i]) == all[..i] + all[i + 1..]
  {
    var last := |all| - 1;
    if i < last {
      assert all[last] == all[i + 1..][last - i - 1];
      assert all[..last][i + 1..] == all[i + 1..][..last - i - 1];
      RemovedAt(all[..last], i);
      assert all[i + 1..] == all[..last][i + 1..] + [all[last]];
    }
  }

  /** No answer is older than the timeout, except for a host that is busy. */
  lemma AnswersAreFresh(entries: seq<Entry>, op: Op, timeout: int)
    requires op.Find? || (op.New? && op.idle && timeout >= 0)
    ensures var answer := Apply(entries, op, timeout).answer;
            answer.Some? ==> op.now <= answer.value.ntime + timeout
  {}

  /** A busy host is answered as it is, however old. */
  lemma BusyIsKept(entries: seq<Entry>, op: Op, timeout: int)
    requires op.New? && !op.idle && EntryFor(entries, op.host, op.port).Some?
    ensures Apply(entries, op, timeout) == Cache(entries, EntryFor(entries, op.host, op.port))
  {}

  lemma {:induction false} RemovedOther(entries: seq<Entry>, e: Entry, host: string, port: nat)
    requires e.host != host
    ensures NewestEntry(Removed(entries, e), host) == NewestEntry(entries, host)
    ensures EntryFor(Removed(entries, e), host, port) == EntryFor(entries, host, port)
  {
    if entries != [] {
      var most, last := entries[..|entries| - 1], entries[|entries| - 1];
      RemovedOther(most, e, host, port);
      if last != e {
        assert (Removed(most, e) + [last])[..|Removed(most, e)|] == Removed(most, e);
      }
    }
  }

  /** Calls for other hosts do not matter. */
  lemma OtherHosts(entries: seq<Entry>, op: Op, timeout: int, host: string, port: nat)
    requires !op.DeleteAll? && op.host != host
    ensures var after := Apply(entries, op, timeout).entries;
            NewestEntry(after, host) == NewestEntry(entries, host)
            && EntryFor(after, host, port) == EntryFor(entries, host, port)
  {
    var found := if op.New? then EntryFor(entries, op.host, op.port) else NewestEntry(entries, op.host);
    if found.Some? {
      FoundHasName(entries, op.host);
      RemovedOther(entries, found.value, host, port);
    }
    if op.New? {
      Appended(entries, Entry(op.host, op.port, op.now), host, port);
      if found.Some? {
        Appended(Removed(entries, found.value), Entry(op.host, op.port, op.now), host, port);
      }
    }
  }

  lemma {:induction false} FoundHasName(entries: seq<Entry>, host: string)
    ensures var e := NewestEntry(entries, host); e.Some? ==> e.value.host == host
  {
    if entries != [] {
      FoundHasName(entries[..|entries| - 1], host);
    }
  }

  lemma Appended(entries: seq<Entry>, e: Entry, host: string, port: nat)
    ensures NewestEntry(entries + [e], host) == if e.host == host then Some(e) else NewestEntry(entries, host)
    ensures EntryFor(entries + [e], host, port)
         == if e.host == host && e.port == port then Some(e) else EntryFor(entries, host, port)
  {
    assert (entries + [e])[..|entries|] == entries;
  }

  /** The call made a new object: none was cached for the key, or an idle one had expired. */
  predicate Makes(entries: seq<Entry>, op: Op, timeout: int) {
    op.New? && var found := EntryFor(entries, op.host, op.port);
               found.None? || (op.idle && found.value.ntime < op.now - timeout)
  }

  lemma MadeIsNewest(entries: seq<Entry>, op: Op, timeout: int)
    requires Makes(entries, op, timeout)
    ensures var c, made := Apply(entries, op, timeout), Entry(op.host, op.port, op.now);
            && c.answer == Some(made) && NewestEntry(c.entries, op.host) == Some(made)
            && EntryFor(c.entries, op.host, op.port) == Some(made)
  {
    var made := Entry(op.host, op.port, op.now);
    Appended(entries, made, op.host, op.port);
    var found := EntryFor(entries, op.host, op.port);
    if found.Some? {
      Appended(Removed(entries, found.value), made, op.host, op.port);
    }
  }

  /** A new object stays the one for its host and its key while there are calls for other hosts only. */
  lemma {:induction false} MadeStays(ops: seq<Op>, k: nat, timeout: int)
    requires k < |ops| && ops[k].New? && Makes(After(ops[..k], timeout).entries, ops[k], timeout)
    requires forall j | k < j < |ops| :: !ops[j].DeleteAll? && ops[j].host != ops[k].host
    ensures var entries, made := After(ops, timeout).entries, Entry(ops[k].host, ops[k].port, ops[k].now);
            && NewestEntry(entries, made.host) == Some(made)
            && EntryFor(entries, made.host, made.port) == Some(made)
  {
    hide Apply, Makes;
    var last := |ops| - 1;
    if k == last {
      MadeIsNewest(After(ops[..k], timeout).entries, ops[k], timeout);
    } else {
      assert ops[..last][..k] == ops[..k];
      MadeStays(ops[..last], k, timeout);
      OtherHosts(After(ops[..last], timeout).entries, ops[last], timeout, ops[k].host, ops[k].port);
    }
  }

  /** Looked up by its host name a new object is found until the timeout has passed, and not after;
      asked for by its key it is given until then, or as long as it is busy, and made anew otherwise. */
  lemma FoundUntilExpired(ops: seq<Op>, k: nat, timeout: int)
    requires k < |ops| - 1 && ops[k].New? && Makes(After(ops[..k], timeout).entries, ops[k], timeout)
    requires forall j | k < j < |ops| - 1 :: !ops[j].DeleteAll? && ops[j].host != ops[k].host
    ensures var last, made := ops[|ops| - 1], Entry(ops[k].host, ops[k].port, ops[k].now);
            var answer := After(ops, timeout).answer;
            && (last.Find? && last.host == made.host ==>
                  answer == if last.now <= made.ntime + timeout then Some(made) else None)
            && (last.New? && last.host == made.host && last.port == made.port ==>
                  answer == Some(if last.now <= made.ntime + timeout || !last.idle then made
                                 else Entry(made.host, made.port, last.now)))
  {
    hide Makes;
    var most := ops[..|ops| - 1];
    assert most[..k] == ops[..k];
    MadeStays(most, k, timeout);
  }

  /** The last answer of a run is not older than the timeout unless the host is busy. */
  lemma LastAnswerIsFresh(ops: seq<Op>, timeout: int)
    requires ops != []
    ensures var last, answer := ops[|ops| - 1], After(ops, timeout).answer;
            (last.Find? || (last.New? && last.idle && timeout >= 0)) && answer.Some? ==>
              last.now <= answer.value.ntime + timeout
  {
    hide Apply;
    var last := ops[|ops| - 1];
    if last.Find? || (last.New? && last.idle && timeout >= 0) {
      AnswersAreFresh(After(ops[..|ops| - 1], timeout).entries, last, timeout);
    }
  }

  predicate EntriesDistinct(entries: seq<Entry>) {
    forall i, j | 0 <= i < j < |entries| :: entries[i].host != entries[j].host || entries[i].port != entries[j].port
  }

  lemma {:induction false} EntriesAt(all: seq<HostInfo>, i: nat)
    requires i < |all|
    ensures |Entries(all)| == |all| && Entries(all)[i] == EntryOf(all[i])
  {
    var init := all[..|all| - 1];
    if i < |init| {
      EntriesAt(init, i);
    } else if init != [] {
      EntriesAt(init, 0);
    }
  }

  lemma DistinctEntries(all: seq<HostInfo>)
    requires KeysDistinct(all)
    ensures EntriesDistinct(Entries(all))
  {
    forall i: nat | i < |all| { EntriesAt(all, i); }
  }

  lemma EntriesAdded(all: seq<HostInfo>, h: HostInfo)
    ensures Entries(all + [h]) == Entries(all) + [EntryOf(h)]
  {}

  lemma {:induction false} EntriesNewest(all: seq<HostInfo>, name: string)
    ensures NewestEntry(Entries(all), name) == AnswerOf(Newest(all, name))
  {
    if all != [] {
      var init, last := all[..|all| - 1], all[|all| - 1];
      EntriesNewest(init, name);
      assert (Entries(init) + [EntryOf(last)])[..|Entries(init)|] == Entries(init);
    }
  }

  lemma {:induction false} EntriesLookup(all: seq<HostInfo>, name: string, port: nat)
    ensures EntryFor(Entries(all), name, port) == AnswerOf(Lookup(all, name, port))
  {
    if all != [] {
      var init, last := all[..|all| - 1], all[|all| - 1];
      EntriesLookup(init, name, port);
      assert (Entries(init) + [EntryOf(last)])[..|Entries(init)|] == Entries(init);
    }
  }

  lemma {:induction false} EntriesRemoved(all: seq<HostInfo>, h: HostInfo)
    requires KeysDistinct(all) && h in all
    ensures Entries(Removed(all, h)) == Removed(Entries(all), EntryOf(h))
  {
    var init, last := all[..|all| - 1], all[|all| - 1];
    assert all == init + [last];
    EntriesAdded(init, last);
    RemovedLast(Entries(init), EntryOf(last), EntryOf(h));
    if last != h {
      EntriesRemoved(init, h);
      EntriesAdded(Removed(init, h), last);
    }
  }

  /** What New and Find do to the entries. */
  lemma EntriesOfCalls(all: seq<HostInfo>, host: string, port: nat)
    requires KeysDistinct(all)
    ensures EntryFor(Entries(all), host, port) == AnswerOf(Lookup(all, host, port))
    ensures NewestEntry(Entries(all), host) == AnswerOf(Newest(all, host))
    ensures var found := Lookup(all, host, port);
            found.Some? ==> Entries(Removed(all, found.value)) == Removed(Entries(all), EntryOf(found.value))
    ensures var found := Newest(all, host);
            found.Some? ==> Entries(Removed(all, found.value)) == Removed(Entries(all), EntryOf(found.value))
    ensures Entries([]) == []
  {
    hide KeysDistinct, Removed;
    EntriesLookup(all, host, port);
    EntriesNewest(all, host);
    if Lookup(all, host, port).Some? {
      EntriesRemoved(all, Lookup(all, host, port).value);
    }
    if Newest(all, host).Some? {
      EntriesRemoved(all, Newest(all, host).value);
    }
  }

  ghost function Objects(all: seq<HostInfo>): set<HostInfo> {
    set h | h in all
  }

  /** One call, compared with the flat cache. */
  method Perform(table: HostTable, op: Op) returns (answer: Option<Entry>)
    requires table.Valid()
    modifies table, table.table, Objects(table.all)
    ensures table.Valid() && (table.table == old(table.table) || table.table == null || fresh(table.table))
    ensures fresh(Objects(table.all) - old(Objects(table.all)))
    ensures Cache(Entries(table.all), answer) == Apply(old(Entries(table.all)), op, table.timeout)
  {
    hide Removed, Lookup, Newest, Entries, EntryFor, NewestEntry, HostTable.Valid, KeysDistinct;
    ghost var before := table.all;
    table.KeysAreDistinct();
    match op {
      case New(host, port, now, idle) =>
        EntriesOfCalls(before, host, port);
        table.SetIdle(host, port, idle);
        var pres := table.New(host, port, now);
        EntriesAdded(before, pres);
        if Lookup(before, host, port).Some? {
          RemovedMembers(before, Lookup(before, host, port).value);
          EntriesAdded(Removed(before, Lookup(before, host, port).value), pres);
        }
        answer := Some(EntryOf(pres));
      case Find(host, now) =>
        EntriesOfCalls(before, host, 0);
        var found := table.Find(host, now);
        if Newest(before, host).Some? {
          RemovedMembers(before, Newest(before, host).value);
        }
        answer := AnswerOf(found);
      case DeleteAll =>
        EntriesOfCalls(before, "", 0);
        table.DeleteAll();
        answer := None;
    }
  }

  /** For every sequence of calls the buckets hold what the flat cache holds, and the last answer
      is that of the flat cache. */
  method Serve(ops: seq<Op>, size: nat, timeout: int) returns (answer: Option<Entry>, ghost entries: seq<Entry>)
    requires size > 0
    ensures answer == After(ops, timeout).answer
    ensures entries == After(ops, timeout).entries && EntriesDistinct(entries)
    ensures ops != [] && answer.Some? ==>
              var last := ops[|ops| - 1];
              last.Find? || (last.New? && last.idle && timeout >= 0) ==> last.now <= answer.value.ntime + timeout
  {
    hide Apply, Entries, KeysDistinct, InBucket, EntriesDistinct;
    var table := new HostTable(size, timeout);
    answer := None;
    EntriesOfCalls([], "", 0);
    for i := 0 to |ops|
      invariant table.Valid() && table.timeout == timeout
      invariant fresh(table) && (table.table != null ==> fresh(table.table))
      invariant fresh(Objects(table.all))
      invariant Cache(Entries(table.all), answer) == After(ops[..i], timeout)
    {
      assert ops[..i + 1][..i] == ops[..i] && ops[..i + 1][i] == ops[i];
      answer := Perform(table, ops[i]);
    }
    assert ops[..|ops|] == ops;
    entries := Entries(table.all);
    DistinctEntries(table.all);
    if ops != [] {
      LastAnswerIsFresh(ops, timeout);
    }
  }
}
