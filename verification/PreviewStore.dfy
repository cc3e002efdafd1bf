/** `PreviewStore` as it is written: entry objects shared with the workers that write through them, compared by
    identity. Each method refines the operation of PreviewModel of the same name. */
module PreviewStore {
  import opened Wrappers
  import opened PreviewModel

  class PreviewEntry {
    ghost const id: nat
    const binding: Binding
    var text: string
    var revision: nat
    var updated: int

    constructor (ghost id: nat, binding: Binding, now: int)
      ensures Value() == Entry(id, binding, "", 0, now)
    {
      this.id := id;
      this.binding := binding;
      text, revision, updated := "", 0, now;
    }

    /** A copy that later writes do not reach. */
    constructor Replica(from: PreviewEntry)
      ensures Value() == from.Value()
    {
      id, binding := from.id, from.binding;
      text, revision, updated := from.text, from.revision, from.updated;
    }

    ghost function Value(): Entry
      reads this
    {
      Entry(id, binding, text, revision, updated)
    }
  }

  ghost function Values(entries: seq<PreviewEntry>): (values: seq<Entry>)
    reads entries
    ensures |values| == |entries|
    ensures forall i | 0 <= i < |entries| :: values[i] == entries[i].Value()
  {
    seq(|entries|, i requires 0 <= i < |entries| reads entries => entries[i].Value())
  }

  /** The dictionary look-up: the place of the entry registered for the run. */
  function Lookup(entries: seq<PreviewEntry>, runId: string): (at: Option<nat>)
    reads entries
    ensures at == Find(Values(entries), runId)
    ensures at.Some? ==> at.value < |entries|
  {
    LookupBelow(entries, runId, |entries|)
  }

  function LookupBelow(entries: seq<PreviewEntry>, runId: string, n: nat): (at: Option<nat>)
    requires n <= |entries|
    reads entries
    ensures at == FindBelow(Values(entries), runId, n)
    ensures at.Some? ==> at.value < |entries|
  {
    if n == 0 then None
    else if entries[n - 1].binding.runId == runId then Some(n - 1)
    else LookupBelow(entries, runId, n - 1)
  }

  lemma {:induction false} ValuesOfRemoved(entries: seq<PreviewEntry>, at: Option<nat>)
    requires at.Some? ==> at.value < |entries|
    ensures Values(RemoveAt(entries, at)) == RemoveAt(Values(entries), at)
  {
  }

  lemma {:induction false} ValuesOfEvicted(entries: seq<PreviewEntry>, capacity: nat)
    ensures Values(Evict(entries, capacity)) == Evict(Values(entries), capacity)
  {
  }

  lemma {:induction false} NothingNew(entries: seq<PreviewEntry>, at: Option<nat>, e: PreviewEntry, capacity: nat)
    requires at.Some? ==> at.value < |entries|
    ensures forall x | x in RemoveAt(entries, at) :: x in entries
    ensures forall x | x in Evict(RemoveAt(entries, at) + [e], capacity) :: x in entries || x == e
  {
    assert forall x | x in RemoveAt(entries, at) :: x in entries;
    assert forall x | x in RemoveAt(entries, at) + [e] :: x in entries || x == e;
  }

  lemma {:induction false} DiscardIsDiscarding(st: Store, c: Config, runId: string, jobId: Option<string>,
                                               attempt: Option<nat>)
    ensures Apply(st, c, Discard(runId, jobId, attempt))
         == Store(Discarding(st.entries, runId, jobId, attempt), st.nextId)
  {
  }

  lemma {:induction false} DiscardJobIsUnnamed(st: Store, c: Config, jobId: string, attempt: nat)
    ensures Apply(st, c, DiscardJob(jobId, attempt)) == Store(Unnamed(st.entries, jobId, attempt), st.nextId)
  {
  }

  /** The oldest entries leave one by one until the capacity is met. */
  method EvictOldest(entries: seq<PreviewEntry>, capacity: nat) returns (kept: seq<PreviewEntry>)
    ensures kept == Evict(entries, capacity)
  {
    kept := entries;
    while |kept| > capacity
      invariant |kept| <= |entries| && kept == entries[|entries| - |kept|..]
      invariant |kept| < |entries| ==> |kept| >= capacity
    {
      kept := kept[1..];
    }
  }

  lemma {:induction false} ValuesOfMore(entries: seq<PreviewEntry>, e: PreviewEntry)
    ensures Values(entries + [e]) == Values(entries) + [e.Value()]
  {
    assert (entries + [e])[..|entries|] == entries;
  }

  method Register(entries: seq<PreviewEntry>, e: PreviewEntry, capacity: nat) returns (kept: seq<PreviewEntry>)
    ensures Values(kept) == Registering(Values(entries), e.Value(), capacity)
    ensures forall x | x in kept :: x in entries || x == e
  {
    var at := Lookup(entries, e.binding.runId);
    var others := RemoveAt(entries, at);
    kept := EvictOldest(others + [e], capacity);
    assert Values(kept) == Registering(Values(entries), e.Value(), capacity) by {
      ValuesOfRemoved(entries, at);
      ValuesOfMore(others, e);
      ValuesOfEvicted(others + [e], capacity);
    }
    NothingNew(entries, at, e, capacity);
  }

  method WithoutRun(entries: seq<PreviewEntry>, runId: string, jobId: Option<string>, attempt: Option<nat>)
    returns (kept: seq<PreviewEntry>)
    ensures Values(kept) == Discarding(Values(entries), runId, jobId, attempt)
    ensures forall e | e in kept :: e in entries
  {
    kept := entries;
    var at := Lookup(entries, runId);
    if && at.Some?
       && (jobId.None? || entries[at.value].binding.jobId == jobId.value)
       && (attempt.None? || entries[at.value].binding.attempt == attempt.value) {
      ValuesOfRemoved(entries, at);
      NothingNew(entries, at, entries[at.value], 0);
      kept := RemoveAt(entries, at);
    }
  }

  method WithoutJob(entries: seq<PreviewEntry>, jobId: string, attempt: nat) returns (kept: seq<PreviewEntry>)
    ensures Values(kept) == Unnamed(Values(entries), jobId, attempt)
    ensures forall e | e in kept :: e in entries
  {
    kept := [];
    for i := 0 to |entries|
      invariant forall e | e in kept :: e in entries
      invariant Values(kept) == UnnamedBelow(Values(entries), jobId, attempt, i)
    {
      var entry := entries[i];
      if !(entry.binding.jobId == jobId && entry.binding.attempt == attempt) {
        ValuesOfMore(kept, entry);
        kept := kept + [entry];
      }
    }
  }

  class PreviewStore {
    const config: Config
    var entries: seq<PreviewEntry>
    /** Every entry ever given out, at the place its identity names. */
    ghost var minted: seq<PreviewEntry>
    /** Every operation so far. */
    ghost var history: seq<Op>

    ghost function View(): Store
      reads this, entries
    {
      Store(Values(entries), |minted|)
    }

    ghost predicate Minted()
      reads this
    {
      && (forall i | 0 <= i < |minted| :: minted[i].id == i)
      && (forall e | e in entries :: e in minted)
    }

    /** The store is where the model gets by its history. */
    ghost predicate Valid()
      reads this, entries
    {
      Minted() && View() == Play(EMPTY, config, history)
    }

    constructor (config: Config)
      ensures Valid() && View() == EMPTY && this.config == config
    {
      this.config := config;
      entries, minted, history := [], [], [];
    }

    /** So a valid store keeps to its capacity, with one entry per run, in the order they were begun. */
    lemma StaysBounded()
      requires Valid()
      ensures Bounded(View(), config)
    {
      HistoriesAreBounded(EMPTY, config, history);
    }

    lemma ReferencesDiffer(i: nat, j: nat)
      requires Valid() && i < |entries| && j < |entries| && i != j
      ensures entries[i] != entries[j]
    {
      StaysBounded();
      assert Values(entries)[i].id != Values(entries)[j].id;
    }

    method Prune(now: int)
      requires Valid()
      modifies entries
      ensures Minted() && entries == old(entries)
      ensures Values(entries) == PreviewModel.Prune(old(Values(entries)), config.ttl, now)
    {
      ghost var before := Values(entries);
      forall i, j | 0 <= i < |entries| && 0 <= j < |entries| && i != j ensures entries[i] != entries[j] {
        ReferencesDiffer(i, j);
      }
      for i := 0 to |entries|
        invariant forall j | 0 <= j < i :: entries[j].Value() == Expire(before[j], config.ttl, now)
        invariant forall j | i <= j < |entries| :: entries[j].Value() == before[j]
      {
        var entry := entries[i];
        if entry.text != "" && now - entry.updated > config.ttl {
          entry.text := "";
          entry.revision := entry.revision + 1;
        }
      }
    }

    method Begin(binding: Binding, now: int) returns (entry: PreviewEntry)
      requires Valid()
      modifies this, entries
      ensures Valid() && View() == DoBegin(old(View()), config, binding, now)
      ensures history == old(history) + [PreviewModel.Begin(binding, now)]
      ensures fresh(entry) && entry.binding == binding && minted == old(minted) + [entry]
    {
      ghost var before := View();
      Prune(now);
      entry := new PreviewEntry(|minted|, binding, now);
      Admit(entry);
      assert View() == DoBegin(before, config, binding, now);
      PlayMore(EMPTY, config, history, PreviewModel.Begin(binding, now));
      history := history + [PreviewModel.Begin(binding, now)];
    }

    method Admit(entry: PreviewEntry)
      requires Minted() && entry.id == |minted|
      modifies this`entries, this`minted
      ensures Minted() && minted == old(minted) + [entry]
      ensures Values(entries) == Registering(old(Values(entries)), old(entry.Value()), config.capacity)
    {
      entries := Register(entries, entry, config.capacity);
      minted := minted + [entry];
    }

    /** Writes through an entry this store gave out at some time. */
    method Update(entry: PreviewEntry, text: Option<string>, now: int)
      requires Valid() && entry in minted
      modifies entry, this`history
      ensures Valid() && minted == old(minted) && entries == old(entries)
      ensures View() == DoUpdate(old(View()), Handle(entry.id, entry.binding.runId), text, now)
      ensures entry !in entries ==> entry.Value() == old(entry.Value())
    {
      ghost var before := View();
      ghost var handle := Handle(entry.id, entry.binding.runId);
      var at := Lookup(entries, entry.binding.runId);
      if at.Some? {
        IdentityIsById(entry, at.value);
      }
      if at.Some? && entries[at.value] == entry {
        WriteAt(at.value, text, now);
      }
      assert View() == DoUpdate(before, handle, text, now);
      PlayMore(EMPTY, config, history, PreviewModel.Update(handle, text, now));
      history := history + [PreviewModel.Update(handle, text, now)];
    }

    lemma IdentityIsById(entry: PreviewEntry, at: nat)
      requires Minted() && entry in minted && at < |entries|
      ensures entries[at] == entry <==> Values(entries)[at].id == entry.id
    {
      assert entries[at] in minted;
    }

    method WriteAt(at: nat, text: Option<string>, now: int)
      requires Valid() && at < |entries|
      modifies entries[at]
      ensures Values(entries) == old(Values(entries)[at := Written(entries[at].Value(), text, now)])
    {
      forall j | 0 <= j < |entries| && j != at ensures entries[j] != entries[at] {
        ReferencesDiffer(j, at);
      }
      var entry := entries[at];
      entry.text := if text.Some? then text.value else "";
      entry.revision := entry.revision + 1;
      entry.updated := now;
    }

    method Get(runId: string, now: int) returns (copy: Option<PreviewEntry>)
      requires Valid()
      modifies entries, this`history
      ensures Valid() && View() == Apply(old(View()), config, PreviewModel.Get(runId, now))
      ensures copy.Some? <==> Copy(old(View()), config, runId, now).Some?
      ensures copy.Some? ==> fresh(copy.value) && copy.value.Value() == Copy(old(View()), config, runId, now).value
    {
      PlayMore(EMPTY, config, history, PreviewModel.Get(runId, now));
      Prune(now);
      history := history + [PreviewModel.Get(runId, now)];
      copy := CopyOf(runId);
    }

    method CopyOf(runId: string) returns (copy: Option<PreviewEntry>)
      ensures var at := Find(Values(entries), runId);
              copy.Some? <==> at.Some? && Values(entries)[at.value].text != ""
      ensures var at := Find(Values(entries), runId);
              copy.Some? ==> fresh(copy.value) && copy.value.Value() == Values(entries)[at.value]
    {
      var at := Lookup(entries, runId);
      if at.None? || entries[at.value].text == "" {
        return None;
      }
      var replica := new PreviewEntry.Replica(entries[at.value]);
      return Some(replica);
    }

    method IsCurrent(copy: PreviewEntry) returns (current: bool)
      ensures current == Current(View(), copy.Value())
    {
      var at := Lookup(entries, copy.binding.runId);
      if at.None? {
        return false;
      }
      var now := entries[at.value];
      current := && now.binding.jobId == copy.binding.jobId
                 && now.binding.attempt == copy.binding.attempt
                 && now.binding.requestNumber == copy.binding.requestNumber
                 && now.revision == copy.revision;
    }

    /** Takes over what an operation leaves, and records the operation. */
    method Replace(kept: seq<PreviewEntry>, ghost op: Op)
      requires Valid() && (forall e | e in kept :: e in minted)
      requires Store(Values(kept), |minted|) == Apply(View(), config, op)
      modifies this`entries, this`history
      ensures Valid() && View() == Apply(old(View()), config, op)
      ensures entries == kept && history == old(history) + [op]
    {
      PlayMore(EMPTY, config, history, op);
      entries := kept;
      history := history + [op];
    }

    method Discard(runId: string, jobId: Option<string>, attempt: Option<nat>)
      requires Valid()
      modifies this`entries, this`history
      ensures Valid() && View() == Apply(old(View()), config, PreviewModel.Discard(runId, jobId, attempt))
    {
      var kept := WithoutRun(entries, runId, jobId, attempt);
      DiscardIsDiscarding(View(), config, runId, jobId, attempt);
      Replace(kept, PreviewModel.Discard(runId, jobId, attempt));
    }

    method DiscardJob(jobId: string, attempt: nat)
      requires Valid()
      modifies this`entries, this`history
      ensures Valid() && View() == Apply(old(View()), config, PreviewModel.DiscardJob(jobId, attempt))
    {
      var kept := WithoutJob(entries, jobId, attempt);
      DiscardJobIsUnnamed(View(), config, jobId, attempt);
      Replace(kept, PreviewModel.DiscardJob(jobId, attempt));
    }
  }
}
