/** The bounded store of answer previews, as values: entries in the order in which their runs were begun
    (`PreviewStore` of backend/fund_kb/answer_preview.py). An entry's identity is a number never given twice. */
module PreviewModel {
  import opened Wrappers

  datatype Binding = Binding(runId: string, jobId: string, attempt: nat, requestNumber: nat)
  datatype Entry = Entry(id: nat, binding: Binding, text: string, revision: nat, updated: int)

  /** What a worker holds to write through: the identity of the entry it was given. */
  datatype Handle = Handle(id: nat, runId: string)

  datatype Store = Store(entries: seq<Entry>, nextId: nat)
  datatype Config = Config(capacity: nat, ttl: int)

  datatype Op =
    | Begin(binding: Binding, now: int)
    | Update(handle: Handle, text: Option<string>, now: int)
    | Get(runId: string, now: int)
    | Discard(runId: string, jobId: Option<string>, attempt: Option<nat>)
    | DiscardJob(job: string, jobAttempt: nat)

  // ----- the operations

  /** An expired text is cleared; the registration stays. */
  function Expire(e: Entry, ttl: int, now: int): Entry {
    if e.text != "" && now - e.updated > ttl then e.(text := "", revision := e.revision + 1) else e
  }

  function Prune(entries: seq<Entry>, ttl: int, now: int): (pruned: seq<Entry>)
    ensures |pruned| == |entries|
    ensures forall i | 0 <= i < |entries| :: pruned[i] == Expire(entries[i], ttl, now)
  {
    seq(|entries|, i requires 0 <= i < |entries| => Expire(entries[i], ttl, now))
  }

  function Find(entries: seq<Entry>, runId: string): (at: Option<nat>)
    ensures at.Some? ==> at.value < |entries| && entries[at.value].binding.runId == runId
    ensures at.None? ==> forall i | 0 <= i < |entries| :: entries[i].binding.runId != runId
  {
    FindBelow(entries, runId, |entries|)
  }

  function FindBelow(entries: seq<Entry>, runId: string, n: nat): (at: Option<nat>)
    requires n <= |entries|
    ensures at.Some? ==> at.value < n && entries[at.value].binding.runId == runId
    ensures at.None? ==> forall i | 0 <= i < n :: entries[i].binding.runId != runId
  {
    if n == 0 then None
    else if entries[n - 1].binding.runId == runId then Some(n - 1)
    else FindBelow(entries, runId, n - 1)
  }

  function RemoveAt<T>(entries: seq<T>, at: Option<nat>): seq<T>
    requires at.Some? ==> at.value < |entries|
  {
    if at.None? then entries else entries[..at.value] + entries[at.value + 1..]
  }

  /** Keeps the youngest entries, as many as the capacity allows. */
  function Evict<T>(entries: seq<T>, capacity: nat): seq<T> {
    if |entries| <= capacity then entries else entries[|entries| - capacity..]
  }

  function Fresh(st: Store, b: Binding, now: int): Entry {
    Entry(st.nextId, b, "", 0, now)
  }

  /** The new entry last, the one of the same run gone, and room made for it. */
  function Registering(entries: seq<Entry>, e: Entry, capacity: nat): seq<Entry> {
    Evict(RemoveAt(entries, Find(entries, e.binding.runId)) + [e], capacity)
  }

  function DoBegin(st: Store, c: Config, b: Binding, now: int): Store {
    Store(Registering(Prune(st.entries, c.ttl, now), Fresh(st, b, now), c.capacity), st.nextId + 1)
  }

  function Written(e: Entry, text: Option<string>, now: int): Entry {
    e.(text := if text.Some? then text.value else "", revision := e.revision + 1, updated := now)
  }

  /** Writes only through the handle of the entry that is registered for the run. */
  function DoUpdate(st: Store, h: Handle, text: Option<string>, now: int): Store {
    var at := Find(st.entries, h.runId);
    if at.None? || st.entries[at.value].id != h.id then st
    else st.(entries := st.entries[at.value := Written(st.entries[at.value], text, now)])
  }

  predicate Names(e: Entry, jobId: Option<string>, attempt: Option<nat>) {
    (jobId.None? || jobId.value == e.binding.jobId) && (attempt.None? || attempt.value == e.binding.attempt)
  }

  function Discarding(entries: seq<Entry>, runId: string, jobId: Option<string>, attempt: Option<nat>): seq<Entry> {
    var at := Find(entries, runId);
    if at.None? || !Names(entries[at.value], jobId, attempt) then entries else RemoveAt(entries, at)
  }

  /** The entries that a job's attempt did not begin. */
  function Unnamed(entries: seq<Entry>, jobId: string, attempt: nat): seq<Entry> {
    UnnamedBelow(entries, jobId, attempt, |entries|)
  }

  function UnnamedBelow(entries: seq<Entry>, jobId: string, attempt: nat, n: nat): seq<Entry>
    requires n <= |entries|
  {
    if n == 0 then []
    else
      var front := UnnamedBelow(entries, jobId, attempt, n - 1);
      if Names(entries[n - 1], Some(jobId), Some(attempt)) then front else front + [entries[n - 1]]
  }

  function Apply(st: Store, c: Config, op: Op): Store {
    match op
    case Begin(b, now) => DoBegin(st, c, b, now)
    case Update(h, text, now) => DoUpdate(st, h, text, now)
    case Get(_, now) => st.(entries := Prune(st.entries, c.ttl, now))
    case Discard(runId, jobId, attempt) => st.(entries := Discarding(st.entries, runId, jobId, attempt))
    case DiscardJob(jobId, attempt) => st.(entries := Unnamed(st.entries, jobId, attempt))
  }

  /** The copy a reader gets: of an entry that has a text. */
  function Copy(st: Store, c: Config, runId: string, now: int): Option<Entry> {
    var pruned := Prune(st.entries, c.ttl, now);
    var at := Find(pruned, runId);
    if at.None? || pruned[at.value].text == "" then None else Some(pruned[at.value])
  }

  /** Whether a copy is still current; neither texts nor identities are compared. */
  predicate Current(st: Store, copy: Entry) {
    var at := Find(st.entries, copy.binding.runId);
    && at.Some?
    && st.entries[at.value].binding.jobId == copy.binding.jobId
    && st.entries[at.value].binding.attempt == copy.binding.attempt
    && st.entries[at.value].binding.requestNumber == copy.binding.requestNumber
    && st.entries[at.value].revision == copy.revision
  }

  // ----- the invariant

  predicate OneEntryPerRun(entries: seq<Entry>) {
    forall i, j | 0 <= i < j < |entries| :: entries[i].binding.runId != entries[j].binding.runId
  }

  /** Entries stand in the order in which they were begun. */
  predicate BegunInOrder(entries: seq<Entry>, nextId: nat) {
    && (forall i, j | 0 <= i < j < |entries| :: entries[i].id < entries[j].id)
    && (forall i | 0 <= i < |entries| :: entries[i].id < nextId)
  }

  predicate Bounded(st: Store, c: Config) {
    |st.entries| <= c.capacity && OneEntryPerRun(st.entries) && BegunInOrder(st.entries, st.nextId)
  }

  /** b comes from a: the same entry, with a higher revision unless its text is the same. */
  predicate Descends(a: Entry, b: Entry) {
    && a.id == b.id && a.binding == b.binding
    && a.revision <= b.revision && (a.revision == b.revision ==> a.text == b.text)
  }

  /** The entries of `after` at growing places in `before`: a subsequence, with each entry possibly rewritten. */
  ghost predicate Thinned(before: seq<Entry>, after: seq<Entry>, places: seq<nat>) {
    && |places| == |after|
    && (forall i, j | 0 <= i < j < |places| :: places[i] < places[j])
    && (forall i | 0 <= i < |places| :: places[i] < |before| && Descends(before[places[i]], after[i]))
  }

  lemma {:induction false} ThinnedStaysInOrder(before: seq<Entry>, after: seq<Entry>, places: seq<nat>, nextId: nat)
    requires Thinned(before, after, places) && OneEntryPerRun(before) && BegunInOrder(before, nextId)
    ensures OneEntryPerRun(after) && BegunInOrder(after, nextId)
    ensures |after| <= |before|
  {
    if |places| > 0 {
      PlacesGrow(places, |places| - 1);
    }
  }

  lemma {:induction false} PlacesGrow(places: seq<nat>, i: nat)
    requires i < |places| && forall a, b | 0 <= a < b < |places| :: places[a] < places[b]
    ensures i <= places[i]
  {
    if i > 0 {
      PlacesGrow(places, i - 1);
    }
  }

  lemma {:induction false} PruneThins(entries: seq<Entry>, ttl: int, now: int) returns (places: seq<nat>)
    ensures Thinned(entries, Prune(entries, ttl, now), places)
  {
    places := seq(|entries|, i requires 0 <= i < |entries| => i);
  }

  lemma {:induction false} RemoveThins(entries: seq<Entry>, at: Option<nat>) returns (places: seq<nat>)
    requires at.Some? ==> at.value < |entries|
    ensures Thinned(entries, RemoveAt(entries, at), places)
    ensures at.Some? ==> forall i | 0 <= i < |places| :: places[i] != at.value
  {
    if at.None? {
      places := seq(|entries|, i requires 0 <= i < |entries| => i);
    } else {
      var gone, after := at.value, RemoveAt(entries, at);
      places := seq(|entries| - 1, i requires 0 <= i < |entries| - 1 => if gone <= i then i + 1 else i);
      forall i | 0 <= i < |places| ensures after[i] == entries[places[i]] {
        if i < gone { assert places[i] == i; } else { assert places[i] == i + 1; }
      }
    }
  }

  lemma {:induction false} UnnamedThins(entries: seq<Entry>, jobId: string, attempt: nat, n: nat)
    returns (places: seq<nat>)
    requires n <= |entries|
    ensures Thinned(entries, UnnamedBelow(entries, jobId, attempt, n), places)
    ensures forall i | 0 <= i < |places| :: places[i] < n
  {
    if n == 0 {
      places := [];
    } else {
      var front := UnnamedBelow(entries, jobId, attempt, n - 1);
      places := UnnamedThins(entries, jobId, attempt, n - 1);
      if Names(entries[n - 1], Some(jobId), Some(attempt)) {
        assert UnnamedBelow(entries, jobId, attempt, n) == front;
      } else {
        OneMoreThins(entries, front, places, n - 1);
        places := places + [n - 1];
        assert UnnamedBelow(entries, jobId, attempt, n) == front + [entries[n - 1]];
      }
    }
  }

  lemma {:induction false} OneMoreThins(entries: seq<Entry>, after: seq<Entry>, places: seq<nat>, at: nat)
    requires Thinned(entries, after, places) && at < |entries| && forall i | 0 <= i < |places| :: places[i] < at
    ensures Thinned(entries, after + [entries[at]], places + [at])
    ensures forall i | 0 <= i < |places + [at]| :: (places + [at])[i] < at + 1
  {
  }

  /** Everything but a begin only thins and rewrites. */
  lemma {:induction false} OtherOpsThin(st: Store, c: Config, op: Op) returns (places: seq<nat>)
    requires !op.Begin?
    ensures Thinned(st.entries, Apply(st, c, op).entries, places) && Apply(st, c, op).nextId == st.nextId
  {
    var same := seq(|st.entries|, i requires 0 <= i < |st.entries| => i);
    match op
    case Update(_, _, _) => places := same;
    case Get(_, now) => places := PruneThins(st.entries, c.ttl, now);
    case Discard(runId, jobId, attempt) =>
      var at := Find(st.entries, runId);
      if at.Some? && Names(st.entries[at.value], jobId, attempt) {
        places := RemoveThins(st.entries, at);
      } else {
        places := same;
      }
    case DiscardJob(jobId, attempt) => places := UnnamedThins(st.entries, jobId, attempt, |st.entries|);
  }

  /** The entries a begin keeps beside the new one. */
  function Others(st: Store, c: Config, b: Binding, now: int): seq<Entry> {
    var pruned := Prune(st.entries, c.ttl, now);
    RemoveAt(pruned, Find(pruned, b.runId))
  }

  lemma {:induction false} OthersThin(st: Store, c: Config, b: Binding, now: int) returns (places: seq<nat>)
    ensures Thinned(st.entries, Others(st, c, b, now), places)
    ensures OneEntryPerRun(st.entries) ==> NoneOf(Others(st, c, b, now), b.runId)
  {
    var pruned := Prune(st.entries, c.ttl, now);
    var at := Find(pruned, b.runId);
    var others := RemoveAt(pruned, at);
    places := RemoveThins(pruned, at);
    PruneThenThin(st.entries, c.ttl, now, others, places);
    if OneEntryPerRun(st.entries) {
      OneEntryRemoved(pruned, at, b.runId, places);
    }
  }

  predicate NoneOf(entries: seq<Entry>, runId: string) {
    forall i | 0 <= i < |entries| :: entries[i].binding.runId != runId
  }

  lemma {:induction false} PruneThenThin(entries: seq<Entry>, ttl: int, now: int, after: seq<Entry>, places: seq<nat>)
    requires Thinned(Prune(entries, ttl, now), after, places)
    ensures Thinned(entries, after, places)
    ensures OneEntryPerRun(entries) ==> OneEntryPerRun(Prune(entries, ttl, now))
  {
    var pruned := Prune(entries, ttl, now);
    forall i | 0 <= i < |places| ensures Descends(entries[places[i]], after[i]) {
      assert Descends(pruned[places[i]], after[i]);
      assert Descends(entries[places[i]], pruned[places[i]]);
    }
  }

  lemma {:induction false} OneEntryRemoved(entries: seq<Entry>, at: Option<nat>, runId: string, places: seq<nat>)
    requires OneEntryPerRun(entries) && at == Find(entries, runId)
    requires Thinned(entries, RemoveAt(entries, at), places)
    requires at.Some? ==> forall i | 0 <= i < |places| :: places[i] != at.value
    ensures NoneOf(RemoveAt(entries, at), runId)
  {
    forall i | 0 <= i < |places| ensures RemoveAt(entries, at)[i].binding.runId != runId {
      assert Descends(entries[places[i]], RemoveAt(entries, at)[i]);
    }
  }

  lemma {:induction false} FreshGoesLast(entries: seq<Entry>, e: Entry)
    requires OneEntryPerRun(entries) && BegunInOrder(entries, e.id) && NoneOf(entries, e.binding.runId)
    ensures OneEntryPerRun(entries + [e]) && BegunInOrder(entries + [e], e.id + 1)
  {
  }

  lemma {:induction false} EvictKeeps(entries: seq<Entry>, capacity: nat, nextId: nat)
    requires OneEntryPerRun(entries) && BegunInOrder(entries, nextId)
    ensures |Evict(entries, capacity)| <= capacity
    ensures OneEntryPerRun(Evict(entries, capacity)) && BegunInOrder(Evict(entries, capacity), nextId)
  {
  }

  lemma {:induction false} OthersStayInOrder(st: Store, c: Config, b: Binding, now: int)
    requires Bounded(st, c)
    ensures var others := Others(st, c, b, now);
            NoneOf(others, b.runId) && OneEntryPerRun(others) && BegunInOrder(others, st.nextId)
  {
    var places := OthersThin(st, c, b, now);
    ThinnedStaysInOrder(st.entries, Others(st, c, b, now), places, st.nextId);
  }

  lemma {:induction false} BeginIsBounded(st: Store, c: Config, b: Binding, now: int)
    requires Bounded(st, c)
    ensures Bounded(DoBegin(st, c, b, now), c)
    ensures BegunInOrder(Others(st, c, b, now) + [Fresh(st, b, now)], st.nextId + 1)
  {
    OthersStayInOrder(st, c, b, now);
    FreshGoesLast(Others(st, c, b, now), Fresh(st, b, now));
    EvictKeeps(Others(st, c, b, now) + [Fresh(st, b, now)], c.capacity, st.nextId + 1);
  }

  lemma {:induction false} ApplyIsBounded(st: Store, c: Config, op: Op)
    requires Bounded(st, c)
    ensures Bounded(Apply(st, c, op), c)
  {
    if op.Begin? {
      BeginIsBounded(st, c, op.binding, op.now);
    } else {
      var places := OtherOpsThin(st, c, op);
      ThinnedStaysInOrder(st.entries, Apply(st, c, op).entries, places, st.nextId);
    }
  }

  // ----- histories

  const EMPTY := Store([], 0)

  function Play(st: Store, c: Config, ops: seq<Op>): Store {
    if ops == [] then st else Apply(Play(st, c, ops[..|ops| - 1]), c, ops[|ops| - 1])
  }

  lemma {:induction false} PlayMore(st: Store, c: Config, ops: seq<Op>, op: Op)
    ensures Play(st, c, ops + [op]) == Apply(Play(st, c, ops), c, op)
  {
    assert (ops + [op])[..|ops|] == ops;
  }

  lemma {:induction false} HistoriesAreBounded(st: Store, c: Config, ops: seq<Op>)
    requires Bounded(st, c)
    ensures Bounded(Play(st, c, ops), c) && st.nextId <= Play(st, c, ops).nextId
  {
    if ops != [] {
      HistoriesAreBounded(st, c, ops[..|ops| - 1]);
      ApplyIsBounded(Play(st, c, ops[..|ops| - 1]), c, ops[|ops| - 1]);
    }
  }

  /** A begin makes room by dropping the entries begun first: whatever stays was begun after whatever is evicted. */
  lemma {:induction false} EvictionTakesTheOldest(st: Store, c: Config, b: Binding, now: int, gone: Entry, kept: Entry)
    requires Bounded(st, c) && gone in Others(st, c, b, now)
    requires gone !in DoBegin(st, c, b, now).entries && kept in DoBegin(st, c, b, now).entries
    ensures gone.id < kept.id
    ensures |DoBegin(st, c, b, now).entries| == c.capacity
  {
    BeginIsBounded(st, c, b, now);
    EvictKeepsTheYoungest(Others(st, c, b, now) + [Fresh(st, b, now)], c.capacity, st.nextId + 1, gone, kept);
  }

  lemma {:induction false} EvictKeepsTheYoungest(all: seq<Entry>, capacity: nat, nextId: nat, gone: Entry, kept: Entry)
    requires BegunInOrder(all, nextId) && gone in all && gone !in Evict(all, capacity) && kept in Evict(all, capacity)
    ensures gone.id < kept.id && |Evict(all, capacity)| == capacity
  {
    var shift := |all| - capacity;
    assert shift > 0;
    var i :| 0 <= i < |all| && all[i] == gone;
    var j :| 0 <= j < capacity && all[shift..][j] == kept;
    forall k | shift <= k < |all| ensures all[k] in Evict(all, capacity) {
      assert all[k] == Evict(all, capacity)[k - shift];
    }
    assert i < shift;
    assert kept == all[j + shift];
  }

  /** The entry with this identity, if it is registered. */
  predicate Registered(st: Store, id: nat) {
    exists i | 0 <= i < |st.entries| :: st.entries[i].id == id
  }

  /** Every entry after a step is one from before, possibly rewritten, or the one just begun. */
  lemma {:induction false} EntriesComeFromBefore(st: Store, c: Config, op: Op, e: Entry)
    requires e in Apply(st, c, op).entries
    ensures ComesFrom(st, e) || (op.Begin? && e == Fresh(st, op.binding, op.now))
  {
    if op.Begin? {
      var others := Others(st, c, op.binding, op.now);
      InEvicted(others + [Fresh(st, op.binding, op.now)], c.capacity, e);
      if e in others {
        var places := OthersThin(st, c, op.binding, op.now);
        ThinnedComesFrom(st, others, places, e);
      }
    } else {
      var places := OtherOpsThin(st, c, op);
      ThinnedComesFrom(st, Apply(st, c, op).entries, places, e);
    }
  }

  ghost predicate ComesFrom(st: Store, e: Entry) {
    exists i :: 0 <= i < |st.entries| && Descends(st.entries[i], e)
  }

  lemma {:induction false} InEvicted(entries: seq<Entry>, capacity: nat, e: Entry)
    requires e in Evict(entries, capacity)
    ensures e in entries
  {
  }

  lemma {:induction false} ThinnedComesFrom(st: Store, after: seq<Entry>, places: seq<nat>, e: Entry)
    requires Thinned(st.entries, after, places) && e in after
    ensures ComesFrom(st, e)
  {
    var k :| 0 <= k < |after| && after[k] == e;
    assert Descends(st.entries[places[k]], e);
  }

  /** A handle that is not registered any more never is again, so nothing is ever written through it. */
  lemma {:induction false} StaleHandlesStayStale(st: Store, c: Config, ops: seq<Op>,
                                                 h: Handle, text: Option<string>, now: int)
    requires Bounded(st, c) && h.id < st.nextId && !Registered(st, h.id)
    ensures !Registered(Play(st, c, ops), h.id)
    ensures DoUpdate(Play(st, c, ops), h, text, now) == Play(st, c, ops)
  {
    if ops != [] {
      var front, op := ops[..|ops| - 1], ops[|ops| - 1];
      var before := Play(st, c, front);
      StaleHandlesStayStale(st, c, front, h, text, now);
      HistoriesAreBounded(st, c, front);
      forall i | 0 <= i < |Play(st, c, ops).entries| ensures Play(st, c, ops).entries[i].id != h.id {
        EntriesComeFromBefore(before, c, op, Play(st, c, ops).entries[i]);
      }
    }
  }

  predicate BeginsOnly(ops: seq<Op>, allowed: set<Binding>) {
    forall i | 0 <= i < |ops| && ops[i].Begin? :: ops[i].binding in allowed
  }

  predicate NeverBegins(ops: seq<Op>, b: Binding) {
    forall i | 0 <= i < |ops| && ops[i].Begin? :: ops[i].binding != b
  }

  /** While a binding is not begun again, its entry is the one it was, with a higher revision or the same text. */
  lemma {:induction false} EntriesDescend(st: Store, c: Config, ops: seq<Op>, e: Entry)
    requires e in Play(st, c, ops).entries
    requires NeverBegins(ops, e.binding)
    ensures exists i :: 0 <= i < |st.entries| && Descends(st.entries[i], e)
    decreases |ops|
  {
    if ops == [] {
      var i :| 0 <= i < |st.entries| && st.entries[i] == e;
      assert Descends(st.entries[i], e);
    } else {
      var front, op := ops[..|ops| - 1], ops[|ops| - 1];
      var before := Play(st, c, front);
      EntriesComeFromBefore(before, c, op, e);
      var k :| 0 <= k < |before.entries| && Descends(before.entries[k], e);
      assert forall i | 0 <= i < |front| :: front[i] == ops[i];
      EntriesDescend(st, c, front, before.entries[k]);
      var i :| 0 <= i < |st.entries| && Descends(st.entries[i], before.entries[k]);
      assert Descends(st.entries[i], e);
    }
  }

  /** A copy that passes for current shows the stored text. */
  predicate Faithful(now: Store, copy: Entry) {
    Current(now, copy) ==> now.entries[Find(now.entries, copy.binding.runId).value].text == copy.text
  }

  /** A copy found current, without a begin of its own binding in between, still shows the stored text;
      begins of the run by another job, attempt or request do no harm. */
  lemma {:induction false} CurrentCopiesAreTrue(st: Store, c: Config, ops: seq<Op>, copy: Entry)
    requires Bounded(st, c) && copy in st.entries && NeverBegins(ops, copy.binding)
    ensures Faithful(Play(st, c, ops), copy)
  {
    var now := Play(st, c, ops);
    if Current(now, copy) {
      var e := now.entries[Find(now.entries, copy.binding.runId).value];
      assert e in now.entries && e.binding == copy.binding;
      EntriesDescend(st, c, ops, e);
      var i :| 0 <= i < |st.entries| && Descends(st.entries[i], e);
      var k :| 0 <= k < |st.entries| && st.entries[k] == copy;
      assert i == k;
    }
  }

  /** One more begin of a binding, and as many updates through its handle. */
  function Revival(st: Store, b: Binding, text: string, n: nat): seq<Op> {
    if n == 0 then [Begin(b, 0)]
    else Revival(st, b, text, n - 1) + [Update(Handle(st.nextId, b.runId), Some(text), 0)]
  }

  predicate EndsWith(st: Store, e: Entry) {
    |st.entries| > 0 && st.entries[|st.entries| - 1] == e
  }

  lemma {:induction false} BegunIsLast(st: Store, c: Config, b: Binding)
    requires c.capacity > 0
    ensures EndsWith(DoBegin(st, c, b, 0), Entry(st.nextId, b, "", 0, 0))
  {
    var all := Others(st, c, b, 0) + [Fresh(st, b, 0)];
    assert DoBegin(st, c, b, 0).entries == Evict(all, c.capacity);
    assert Evict(all, c.capacity)[|Evict(all, c.capacity)| - 1] == all[|all| - 1];
  }

  lemma {:induction false} RevivalBegins(st: Store, b: Binding, text: string, n: nat)
    ensures BeginsOnly(Revival(st, b, text, n), {b})
  {
    if n > 0 {
      RevivalBegins(st, b, text, n - 1);
    }
  }

  /** A handle writes to the last entry if that is its own. */
  lemma {:induction false} UpdateOfLast(st: Store, e: Entry, text: string)
    requires EndsWith(st, e)
    ensures EndsWith(DoUpdate(st, Handle(e.id, e.binding.runId), Some(text), 0), Written(e, Some(text), 0))
  {
    assert Find(st.entries, e.binding.runId) == Some(|st.entries| - 1);
  }

  function Revived(st: Store, b: Binding, text: string, n: nat): Entry {
    Entry(st.nextId, b, if n == 0 then "" else text, n, 0)
  }

  lemma {:induction false} RevivalReaches(st: Store, c: Config, b: Binding, text: string, n: nat)
    requires c.capacity > 0
    ensures EndsWith(Play(st, c, Revival(st, b, text, n)), Revived(st, b, text, n))
  {
    if n == 0 {
      assert Revival(st, b, text, 0) == [] + [Begin(b, 0)];
      PlayMore(st, c, [], Begin(b, 0));
      BegunIsLast(st, c, b);
    } else {
      RevivalReaches(st, c, b, text, n - 1);
      PlayMore(st, c, Revival(st, b, text, n - 1), Update(Handle(st.nextId, b.runId), Some(text), 0));
      UpdateOfLast(Play(st, c, Revival(st, b, text, n - 1)), Revived(st, b, text, n - 1), text);
    }
  }

  lemma {:induction false} LastIsCurrent(now: Store, copy: Entry, text: string)
    requires text != copy.text && exists e ::
               EndsWith(now, e) && e.binding == copy.binding && e.revision == copy.revision && e.text == text
    ensures Current(now, copy) && !Faithful(now, copy)
  {
    assert Find(now.entries, copy.binding.runId) == Some(|now.entries| - 1);
  }

  /** The exact condition: whatever the continuation, with begins of the bindings in `allowed` only, a copy that passes
      for current is true, if and only if the copy's own binding is not among them. */
  lemma {:induction false} CurrentIsTrueIffNotBegunAgain(st: Store, c: Config, copy: Entry, allowed: set<Binding>)
    requires Bounded(st, c) && copy in st.entries && copy.revision > 0
    ensures (forall ops | BeginsOnly(ops, allowed) :: Faithful(Play(st, c, ops), copy)) <==> copy.binding !in allowed
  {
    if copy.binding in allowed {
      var text := copy.text + "x";
      var ops := Revival(st, copy.binding, text, copy.revision);
      assert |text| == |copy.text| + 1;
      RevivalReaches(st, c, copy.binding, text, copy.revision);
      RevivalBegins(st, copy.binding, text, copy.revision);
      LastIsCurrent(Play(st, c, ops), copy, text);
      assert BeginsOnly(ops, allowed) && !Faithful(Play(st, c, ops), copy);
    } else {
      forall ops | BeginsOnly(ops, allowed) ensures Faithful(Play(st, c, ops), copy) {
        CurrentCopiesAreTrue(st, c, ops, copy);
      }
    }
  }

  /** A text that is shown was written, so the copies that readers get have a revision. */
  predicate WrittenTexts(entries: seq<Entry>) {
    forall i | 0 <= i < |entries| && entries[i].text != "" :: entries[i].revision > 0
  }

  lemma {:induction false} ShownTextsWereWritten(c: Config, ops: seq<Op>)
    ensures WrittenTexts(Play(EMPTY, c, ops).entries)
  {
    if ops != [] {
      var front, op := ops[..|ops| - 1], ops[|ops| - 1];
      ShownTextsWereWritten(c, front);
      forall i | 0 <= i < |Play(EMPTY, c, ops).entries| && Play(EMPTY, c, ops).entries[i].text != ""
        ensures Play(EMPTY, c, ops).entries[i].revision > 0
      {
        EntriesComeFromBefore(Play(EMPTY, c, front), c, op, Play(EMPTY, c, ops).entries[i]);
      }
    }
  }

  lemma {:induction false} OneSlot(st: Store, c: Config, b: Binding, now: int)
    requires c.capacity == 1
    ensures DoBegin(st, c, b, now) == Store([Fresh(st, b, now)], st.nextId + 1)
  {
    var others := Others(st, c, b, now);
    assert (others + [Fresh(st, b, now)])[|others|..] == [Fresh(st, b, now)];
  }

  /** With a begin in between this fails: the run begun again for the same request reaches the same revision
      with another text, and the old copy passes for current. */
  lemma {:induction false} BeginMayRevive()
    ensures var c, b := Config(1, 30), Binding("run", "job", 1, 1);
            var first := Play(EMPTY, c, [Begin(b, 0), Update(Handle(0, "run"), Some("old"), 0)]);
            var copy := Copy(first, c, "run", 0);
            var second := Play(first, c, [Begin(b, 0), Update(Handle(1, "run"), Some("new"), 0)]);
            && copy.Some? && copy.value.text == "old" && Current(second, copy.value)
            && second.entries[0].text == "new"
  {
    var c, b := Config(1, 30), Binding("run", "job", 1, 1);
    var o1 := [Begin(b, 0), Update(Handle(0, "run"), Some("old"), 0)];
    var o2 := [Begin(b, 0), Update(Handle(1, "run"), Some("new"), 0)];
    assert o1[..1] == [Begin(b, 0)] && o2[..1] == [Begin(b, 0)] && [Begin(b, 0)][..0] == [];
    assert Play(EMPTY, c, []) == EMPTY;
    OneSlot(EMPTY, c, b, 0);
    assert Play(EMPTY, c, [Begin(b, 0)]) == Store([Entry(0, b, "", 0, 0)], 1);
    var first := Play(EMPTY, c, o1);
    assert first == Store([Entry(0, b, "old", 1, 0)], 1);
    assert Prune(first.entries, 30, 0) == first.entries;
    assert Play(first, c, []) == first;
    OneSlot(first, c, b, 0);
    assert Play(first, c, [Begin(b, 0)]) == Store([Entry(1, b, "", 0, 0)], 2);
    assert Play(first, c, o2) == Store([Entry(1, b, "new", 1, 0)], 2);
  }
}
