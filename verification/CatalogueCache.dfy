/** The two-tier catalogue cache: a bounded in-memory tier over signed disk records (core/addon_discovery.py). */
module CatalogueCache {
  import opened Wrappers
  import opened Json

  const FRESH_SECONDS := 600.0
  const MEMORY_LIMIT := 32

  /** An entry of the ordered in-memory cache. */
  datatype Entry = Entry(path: string, stamp: real, value: map<string, Json>)

  datatype DiskRecord = DiskRecord(identity: string, expires: real, value: Json)

  function ApiIdentity(path: string): string {
    "api:" + path
  }

  predicate HoldsPath(memory: seq<Entry>, path: string) {
    exists i :: 0 <= i < |memory| && memory[i].path == path
  }

  /** `_CACHE[path] = ...`: a known path keeps its place in the order. */
  function Put(memory: seq<Entry>, e: Entry): seq<Entry> {
    if memory == [] then [e]
    else if memory[0].path == e.path then [e] + memory[1..]
    else [memory[0]] + Put(memory[1..], e)
  }

  /** The entry put in, then the oldest evicted down to the limit. */
  function PutBounded(memory: seq<Entry>, e: Entry): seq<Entry> {
    Last(Put(memory, e), MEMORY_LIMIT)
  }

  function Find(memory: seq<Entry>, path: string): Option<Entry> {
    if memory == [] then None else if memory[0].path == path then Some(memory[0]) else Find(memory[1..], path)
  }

  function MemoryHit(memory: seq<Entry>, path: string, now: real): Option<map<string, Json>> {
    match Find(memory, path)
    case Some(e) => if now - e.stamp < FRESH_SECONDS then Some(e.value) else None
    case None => None
  }

  /** `_cached`: the record in the identity's file, if it names that identity and has not expired. `fileOf` may
      send two identities to one file. */
  function Cached(fileOf: string -> string, disk: map<string, DiskRecord>, identity: string, now: real): Option<Json> {
    if fileOf(identity) !in disk then None
    else
      var record := disk[fileOf(identity)];
      if record.identity == identity && record.expires > now then Some(record.value) else None
  }

  function DiskHit(fileOf: string -> string, disk: map<string, DiskRecord>, path: string, now: real): Option<map<string, Json>> {
    match Cached(fileOf, disk, ApiIdentity(path), now)
    case Some(JObject(fields)) => Some(fields)
    case _ => None
  }

  datatype Origin = Refused | Unreadable | Answered(value: map<string, Json>)

  /** When the steps of one `_api` call happen, and what the outside does to it. */
  datatype Moments = Moments(memoryRead: real, diskRead: real, memoryStamp: real, diskStamp: real)

  datatype DiskWrite = Skipped | Written(pruned: set<string>)

  /** `_remember`: the record written, then the files that pruning removes gone. */
  function Remember(fileOf: string -> string, disk: map<string, DiskRecord>, record: DiskRecord, write: DiskWrite): map<string, DiskRecord> {
    match write
    case Skipped => disk
    case Written(pruned) => disk[fileOf(record.identity) := record] - pruned
  }

  class Catalogue {
    const fileOf: string -> string
    var memory: seq<Entry>
    var disk: map<string, DiskRecord>

    constructor (fileOf: string -> string)
      ensures this.fileOf == fileOf && memory == [] && disk == map[]
    {
      this.fileOf := fileOf;
      memory, disk := [], map[];
    }

    /** `_CACHE[path] = (now, result)` and the eviction loop after it. */
    method StoreInMemory(e: Entry)
      modifies this`memory
      ensures memory == PutBounded(old(memory), e)
    {
      memory := Put(memory, e);
      while |memory| > MEMORY_LIMIT
        invariant Last(memory, MEMORY_LIMIT) == PutBounded(old(memory), e)
      {
        memory := memory[1..];
      }
    }

    /** `_api`. A disk hit is returned as it is; only an answer of the origin is stored, in both tiers. */
    method Api(path: string, at: Moments, readable: bool, origin: Origin, write: DiskWrite) returns (r: Option<map<string, Json>>)
      modifies this
      ensures MemoryHit(old(memory), path, at.memoryRead).Some? ==>
                r == MemoryHit(old(memory), path, at.memoryRead) && memory == old(memory) && disk == old(disk)
      ensures MemoryHit(old(memory), path, at.memoryRead) == None && readable && DiskHit(fileOf, old(disk), path, at.diskRead).Some? ==>
                r == DiskHit(fileOf, old(disk), path, at.diskRead) && memory == old(memory) && disk == old(disk)
      ensures MemoryHit(old(memory), path, at.memoryRead) == None && !(readable && DiskHit(fileOf, old(disk), path, at.diskRead).Some?) ==>
                if origin.Answered? then
                  r == Some(origin.value) && memory == PutBounded(old(memory), Entry(path, at.memoryStamp, origin.value))
                  && disk == Remember(fileOf, old(disk), DiskRecord(ApiIdentity(path), at.diskStamp + FRESH_SECONDS, JObject(origin.value)), write)
                else r == None && memory == old(memory) && disk == old(disk)
    {
      r := MemoryHit(memory, path, at.memoryRead);
      if r.Some? {
        return;
      }
      if readable {
        r := DiskHit(fileOf, disk, path, at.diskRead);
        if r.Some? {
          return;
        }
      }
      if !origin.Answered? {
        return None;
      }
      StoreInMemory(Entry(path, at.memoryStamp, origin.value));
      disk := Remember(fileOf, disk, DiskRecord(ApiIdentity(path), at.diskStamp + FRESH_SECONDS, JObject(origin.value)), write);
      return Some(origin.value);
    }
  }

  // ----- runs, with the calls of any number of threads interleaved step by step -----

  /** What the origin answered, and when. */
  datatype Reply = Reply(path: string, value: map<string, Json>, time: real)

  /** `now` is the monotonic clock, which memory entries are stamped with. Disk records carry the wall clock, which is ahead
      of it by `offset`; `peak` is the furthest it has been ahead. */
  datatype State = State(memory: seq<Entry>, disk: map<string, DiskRecord>, log: seq<Reply>, now: real, offset: real, peak: real)

  function Wall(s: State): real {
    s.now + s.offset
  }

  /** How far the wall clock is set back from where it would have been. */
  function SetBack(s: State): real {
    s.peak - s.offset
  }

  /** Time passes; the wall clock is set; the process restarts; the origin answers some thread; a thread stores an answer it
      got, in either tier; something else is remembered on disk; a disk record is pruned, lost or damaged. */
  datatype Step =
    | Wait(seconds: real)
    | SetWall(change: real)
    | Restart
    | OriginAnswers(path: string, value: map<string, Json>)
    | StoreMemory(reply: nat)
    | StoreDisk(reply: nat)
    | RememberOther(identity: string, content: Json, lifetime: real)
    | LoseRecord(file: string)

  predicate Enabled(s: State, step: Step) {
    match step
    case Wait(seconds) => seconds >= 0.0
    case StoreMemory(k) => k < |s.log|
    case StoreDisk(k) => k < |s.log|
    case RememberOther(identity, _, _) => |identity| < 4 || identity[..4] != "api:"
    case _ => true
  }

  /** A step that is not enabled does nothing. */
  function Next(fileOf: string -> string, s: State, step: Step): State {
    if !Enabled(s, step) then s
    else match step
      case Wait(seconds) => s.(now := s.now + seconds)
      case SetWall(change) =>
        s.(offset := s.offset + change, peak := if s.peak < s.offset + change then s.offset + change else s.peak)
      case Restart => s.(memory := [])
      case OriginAnswers(path, value) => s.(log := s.log + [Reply(path, value, s.now)])
      case StoreMemory(k) => s.(memory := PutBounded(s.memory, Entry(s.log[k].path, s.now, s.log[k].value)))
      case StoreDisk(k) =>
        s.(disk := Remember(fileOf, s.disk, DiskRecord(ApiIdentity(s.log[k].path), Wall(s) + FRESH_SECONDS, JObject(s.log[k].value)), Written({})))
      case RememberOther(identity, content, lifetime) =>
        s.(disk := Remember(fileOf, s.disk, DiskRecord(identity, Wall(s) + lifetime, content), Written({})))
      case LoseRecord(file) => s.(disk := s.disk - {file})
  }

  const START := State([], map[], [], 0.0, 0.0, 0.0)

  function Run(fileOf: string -> string, steps: seq<Step>): State {
    if steps == [] then START else Next(fileOf, Run(fileOf, steps[..|steps| - 1]), steps[|steps| - 1])
  }

  /** An answer this step stores was given at most `delay` seconds ago. */
  predicate StoresWithin(s: State, step: Step, delay: real) {
    Enabled(s, step) && (step.StoreMemory? || step.StoreDisk?) ==> s.now - s.log[step.reply].time <= delay
  }

  /** Every answer the run stores, it stores at most `delay` seconds after it was given. */
  predicate Prompt(fileOf: string -> string, steps: seq<Step>, delay: real) {
    steps != [] ==>
      && Prompt(fileOf, steps[..|steps| - 1], delay)
      && StoresWithin(Run(fileOf, steps[..|steps| - 1]), steps[|steps| - 1], delay)
  }

  /** The value was answered for the path no more than `delay` seconds before `stamp`, and not after it. */
  ghost predicate AnsweredBy(log: seq<Reply>, path: string, value: map<string, Json>, stamp: real, delay: real) {
    exists k :: 0 <= k < |log| && log[k].path == path && log[k].value == value && stamp - delay <= log[k].time <= stamp
  }

  ghost predicate MemoryHolds(s: State, delay: real) {
    && |s.memory| <= MEMORY_LIMIT
    && forall e :: e in s.memory ==> e.stamp <= s.now && AnsweredBy(s.log, e.path, e.value, e.stamp, delay)
  }

  /** The answer was stored at `stored`, when the wall clock was at most `peak` ahead. */
  ghost predicate StoredAt(s: State, r: DiskRecord, delay: real, stored: real)
    requires |r.identity| >= 4 && r.value.JObject?
  {
    stored <= s.now && r.expires - FRESH_SECONDS <= stored + s.peak && AnsweredBy(s.log, r.identity[4..], r.value.fields, stored, delay)
  }

  ghost predicate RecordHolds(s: State, r: DiskRecord, delay: real) {
    |r.identity| >= 4 && r.identity[..4] == "api:" ==> r.value.JObject? && exists stored :: StoredAt(s, r, delay, stored)
  }

  ghost predicate DiskHolds(s: State, delay: real) {
    forall file :: file in s.disk ==> RecordHolds(s, s.disk[file], delay)
  }

  ghost predicate LogHolds(s: State) {
    s.offset <= s.peak && forall k :: 0 <= k < |s.log| ==> s.log[k].time <= s.now
  }

  lemma {:induction false} PutMembers(memory: seq<Entry>, e: Entry)
    ensures forall x :: x in Put(memory, e) ==> x == e || x in memory
    ensures |Put(memory, e)| == |memory| + (if HoldsPath(memory, e.path) then 0 else 1)
  {
    if memory != [] && memory[0].path != e.path {
      PutMembers(memory[1..], e);
      assert memory == [memory[0]] + memory[1..];
      if HoldsPath(memory, e.path) {
        var i :| 0 <= i < |memory| && memory[i].path == e.path;
        assert memory[1..][i - 1] == memory[i];
      }
      if i :| 0 <= i < |memory[1..]| && memory[1..][i].path == e.path {
        assert memory[i + 1].path == e.path;
      }
    }
  }

  lemma LogGrows(log: seq<Reply>, r: Reply, path: string, value: map<string, Json>, stamp: real, delay: real)
    requires AnsweredBy(log, path, value, stamp, delay)
    ensures AnsweredBy(log + [r], path, value, stamp, delay)
  {
    var k :| 0 <= k < |log| && log[k].path == path && log[k].value == value && stamp - delay <= log[k].time <= stamp;
    assert (log + [r])[k] == log[k];
  }

  lemma MemoryKept(fileOf: string -> string, s: State, step: Step, delay: real)
    requires LogHolds(s) && MemoryHolds(s, delay) && StoresWithin(s, step, delay)
    ensures MemoryHolds(Next(fileOf, s, step), delay)
  {
    var t := Next(fileOf, s, step);
    if !Enabled(s, step) {
      assert t == s;
    } else if step.StoreMemory? {
      var r := s.log[step.reply];
      var e := Entry(r.path, s.now, r.value);
      PutMembers(s.memory, e);
      assert AnsweredBy(s.log, e.path, e.value, e.stamp, delay);
    } else if step.OriginAnswers? {
      forall e | e in t.memory ensures AnsweredBy(t.log, e.path, e.value, e.stamp, delay) {
        LogGrows(s.log, Reply(step.path, step.value, s.now), e.path, e.value, e.stamp, delay);
      }
    }
  }

  lemma RecordKept(s: State, t: State, r: DiskRecord, delay: real)
    requires RecordHolds(s, r, delay) && s.now <= t.now && s.peak <= t.peak && (t.log == s.log || (|t.log| > 0 && t.log[..|t.log| - 1] == s.log))
    ensures RecordHolds(t, r, delay)
  {
    if |r.identity| >= 4 && r.identity[..4] == "api:" {
      var stored :| StoredAt(s, r, delay, stored);
      if t.log != s.log {
        assert t.log == s.log + [t.log[|t.log| - 1]];
        LogGrows(s.log, t.log[|t.log| - 1], r.identity[4..], r.value.fields, stored, delay);
      }
      assert StoredAt(t, r, delay, stored);
    }
  }

  lemma DiskKept(fileOf: string -> string, s: State, step: Step, delay: real)
    requires LogHolds(s) && DiskHolds(s, delay) && StoresWithin(s, step, delay)
    ensures DiskHolds(Next(fileOf, s, step), delay)
  {
    var t := Next(fileOf, s, step);
    if step.OriginAnswers? {
      assert t.log[..|t.log| - 1] == s.log;
    }
    forall file | file in t.disk ensures RecordHolds(t, t.disk[file], delay) {
      if file in s.disk && t.disk[file] == s.disk[file] {
        RecordKept(s, t, s.disk[file], delay);
      } else if step.StoreDisk? {
        var r := s.log[step.reply];
        assert ApiIdentity(r.path)[..4] == "api:" && ApiIdentity(r.path)[4..] == r.path;
        assert AnsweredBy(s.log, r.path, r.value, s.now, delay);
        assert StoredAt(t, t.disk[file], delay, s.now);
      }
    }
  }

  lemma {:induction false} RunHolds(fileOf: string -> string, steps: seq<Step>, delay: real)
    requires Prompt(fileOf, steps, delay)
    ensures var s := Run(fileOf, steps); LogHolds(s) && MemoryHolds(s, delay) && DiskHolds(s, delay)
  {
    if steps != [] {
      var init, step := steps[..|steps| - 1], steps[|steps| - 1];
      RunHolds(fileOf, init, delay);
      MemoryKept(fileOf, Run(fileOf, init), step, delay);
      DiskKept(fileOf, Run(fileOf, init), step, delay);
    }
  }

  lemma {:induction false} FoundIsMember(memory: seq<Entry>, path: string)
    ensures Find(memory, path).Some? ==> Find(memory, path).value in memory && Find(memory, path).value.path == path
  {
    if memory != [] && memory[0].path != path {
      FoundIsMember(memory[1..], path);
    }
  }

  /** One of the two tiers gives the value for the path. */
  predicate Serves(fileOf: string -> string, s: State, path: string, value: map<string, Json>) {
    MemoryHit(s.memory, path, s.now) == Some(value) || DiskHit(fileOf, s.disk, path, Wall(s)) == Some(value)
  }

  /** The origin gave the value for the path less than `age` seconds ago. */
  ghost predicate AnsweredWithin(s: State, path: string, value: map<string, Json>, age: real) {
    exists k :: 0 <= k < |s.log| && s.log[k].path == path && s.log[k].value == value
                && s.log[k].time <= s.now && s.now - s.log[k].time < age
  }

  lemma MemoryHitIsRecent(s: State, delay: real, path: string, value: map<string, Json>)
    requires MemoryHolds(s, delay) && MemoryHit(s.memory, path, s.now) == Some(value)
    ensures delay >= 0.0 && AnsweredWithin(s, path, value, FRESH_SECONDS + delay)
  {
    FoundIsMember(s.memory, path);
    var e := Find(s.memory, path).value;
    assert AnsweredBy(s.log, path, value, e.stamp, delay);
  }

  lemma DiskHitIsRecent(fileOf: string -> string, s: State, delay: real, path: string, value: map<string, Json>)
    requires DiskHolds(s, delay) && DiskHit(fileOf, s.disk, path, Wall(s)) == Some(value)
    ensures delay >= 0.0 && AnsweredWithin(s, path, value, FRESH_SECONDS + delay + SetBack(s))
  {
    var r := s.disk[fileOf(ApiIdentity(path))];
    assert RecordHolds(s, r, delay);
    assert r.identity[..4] == "api:" && r.identity[4..] == path;
    var stored :| StoredAt(s, r, delay, stored);
    assert AnsweredBy(s.log, path, value, stored, delay);
  }

  /** Whatever the interleaving, the losses and the evictions: a value either tier gives for a path was answered by the
      origin for that same path less than 600 seconds before, plus at most the time a thread took from having the answer
      to storing it and, for a disk record, the time the wall clock is set back. The memory tier never holds more than 32
      entries. */
  lemma HitsWereAnsweredRecently(fileOf: string -> string, steps: seq<Step>, delay: real, path: string, value: map<string, Json>)
    requires Prompt(fileOf, steps, delay) && Serves(fileOf, Run(fileOf, steps), path, value)
    ensures var s := Run(fileOf, steps);
            && |s.memory| <= MEMORY_LIMIT && SetBack(s) >= 0.0 && delay >= 0.0
            && AnsweredWithin(s, path, value, FRESH_SECONDS + delay + if MemoryHit(s.memory, path, s.now) == Some(value) then 0.0 else SetBack(s))
  {
    var s := Run(fileOf, steps);
    RunHolds(fileOf, steps, delay);
    if MemoryHit(s.memory, path, s.now) == Some(value) {
      MemoryHitIsRecent(s, delay, path, value);
    } else {
      DiskHitIsRecent(fileOf, s, delay, path, value);
    }
  }

  lemma {:induction false} FindInPut(memory: seq<Entry>, e: Entry, cut: nat)
    requires cut <= |Put(memory, e)| && (HoldsPath(memory, e.path) ==> cut == 0) && cut <= |memory|
    ensures Find(Put(memory, e)[cut..], e.path) == Some(e)
    decreases |memory|
  {
    var put := Put(memory, e);
    if memory != [] && memory[0].path != e.path {
      var rest := Put(memory[1..], e);
      if i :| 0 <= i < |memory[1..]| && memory[1..][i].path == e.path {
        assert memory[i + 1].path == e.path;
      }
      if cut == 0 {
        FindInPut(memory[1..], e, 0);
        assert put[0..] == [memory[0]] + rest && rest[0..] == rest;
      } else {
        assert put[cut..] == rest[cut - 1..];
        FindInPut(memory[1..], e, cut - 1);
      }
    } else if memory != [] {
      assert memory[0].path == e.path;
    }
  }

  /** The answer just stored is the one found next, whatever the eviction removed. */
  lemma StoredAnswerIsFound(memory: seq<Entry>, e: Entry)
    requires |memory| <= MEMORY_LIMIT
    ensures Find(PutBounded(memory, e), e.path) == Some(e)
    ensures |PutBounded(memory, e)| <= MEMORY_LIMIT
  {
    PutMembers(memory, e);
    var put := Put(memory, e);
    var cut: nat := if |put| <= MEMORY_LIMIT then 0 else |put| - MEMORY_LIMIT;
    assert put[0..] == put;
    FindInPut(memory, e, cut);
  }

  // ----- what is stored is served -----

  /** The first entry for the path is the one at `i`. */
  ghost predicate FirstAt(memory: seq<Entry>, path: string, i: nat) {
    i < |memory| && memory[i].path == path && forall k :: 0 <= k < i ==> memory[k].path != path
  }

  lemma {:induction false} FindFirst(memory: seq<Entry>, path: string, i: nat)
    requires FirstAt(memory, path, i)
    ensures Find(memory, path) == Some(memory[i])
  {
    if i > 0 {
      assert memory[0].path != path;
      FindFirst(memory[1..], path, i - 1);
    }
  }

  /** A known path keeps its place and gets the new entry; a new one comes last; no other entry is touched. */
  lemma {:induction false} PutKeepsPlaces(memory: seq<Entry>, e: Entry) returns (at: nat)
    ensures at < |Put(memory, e)| == (if at == |memory| then |memory| + 1 else |memory|) && Put(memory, e)[at] == e
    ensures at < |memory| ==> FirstAt(memory, e.path, at)
    ensures at == |memory| ==> !HoldsPath(memory, e.path)
    ensures forall k :: 0 <= k < |memory| && k != at ==> Put(memory, e)[k] == memory[k]
  {
    if memory == [] || memory[0].path == e.path {
      at := 0;
    } else {
      var rest := PutKeepsPlaces(memory[1..], e);
      at := rest + 1;
      assert memory == [memory[0]] + memory[1..] && Put(memory, e) == [memory[0]] + Put(memory[1..], e);
      if HoldsPath(memory, e.path) {
        var k :| 0 <= k < |memory| && memory[k].path == e.path;
        assert memory[1..][k - 1].path == e.path;
      }
    }
  }

  /** How many answers for further paths memory takes in before the entry at `i` can be evicted. */
  function Room(memory: seq<Entry>, i: nat): int {
    MEMORY_LIMIT - |memory| + i
  }

  /** Putting in an entry for another path costs at most one of the places before the entry at `i` and the free ones. */
  lemma PutLeavesRoom(memory: seq<Entry>, i: nat, path: string, e: Entry) returns (j: nat)
    requires |memory| <= MEMORY_LIMIT && FirstAt(memory, path, i) && e.path != path && Room(memory, i) > 0
    ensures FirstAt(PutBounded(memory, e), path, j) && PutBounded(memory, e)[j] == memory[i]
    ensures Room(PutBounded(memory, e), j) >= Room(memory, i) - 1
    ensures |PutBounded(memory, e)| <= MEMORY_LIMIT
  {
    var at := PutKeepsPlaces(memory, e);
    var put := Put(memory, e);
    var cut := if |put| <= MEMORY_LIMIT then 0 else |put| - MEMORY_LIMIT;
    assert PutBounded(memory, e) == put[cut..];
    assert at != i;
    j := i - cut;
    forall k | 0 <= k < j ensures PutBounded(memory, e)[k].path != path {
      assert PutBounded(memory, e)[k] == put[k + cut];
    }
  }

  /** Nothing that makes memory forget the path, or know something newer for it. */
  predicate SparesMemory(s: State, step: Step, path: string) {
    !step.Restart? && (Enabled(s, step) && step.StoreMemory? ==> s.log[step.reply].path != path)
  }

  /** Nothing that removes or writes the file. */
  predicate SparesFile(fileOf: string -> string, s: State, step: Step, file: string) {
    match step
    case StoreDisk(k) => k < |s.log| ==> fileOf(ApiIdentity(s.log[k].path)) != file
    case RememberOther(identity, _, _) => fileOf(identity) != file
    case LoseRecord(f) => f != file
    case _ => true
  }

  predicate AllSpareMemory(fileOf: string -> string, steps: seq<Step>, n: nat, path: string)
    requires n <= |steps|
  {
    forall m :: n <= m < |steps| ==> SparesMemory(Run(fileOf, steps[..m]), steps[m], path)
  }

  predicate AllSpareFile(fileOf: string -> string, steps: seq<Step>, n: nat, file: string)
    requires n <= |steps|
  {
    forall m :: n <= m < |steps| ==> SparesFile(fileOf, Run(fileOf, steps[..m]), steps[m], file)
  }

  /** How many of the steps from the `n`-th on store in memory. */
  function MemoryStores(steps: seq<Step>, n: nat): nat
    requires n <= |steps|
  {
    if n == |steps| then 0 else MemoryStores(steps[..|steps| - 1], n) + (if steps[|steps| - 1].StoreMemory? then 1 else 0)
  }

  lemma AllSpareInit(fileOf: string -> string, steps: seq<Step>, n: nat, path: string, file: string)
    requires n < |steps|
    ensures AllSpareMemory(fileOf, steps, n, path) ==> AllSpareMemory(fileOf, steps[..|steps| - 1], n, path)
    ensures AllSpareFile(fileOf, steps, n, file) ==> AllSpareFile(fileOf, steps[..|steps| - 1], n, file)
  {
    var init := steps[..|steps| - 1];
    assert forall m :: n <= m < |init| ==> init[..m] == steps[..m] && init[m] == steps[m];
  }

  lemma {:induction false} EntryStays(fileOf: string -> string, steps: seq<Step>, n: nat, path: string, i: nat) returns (j: nat)
    requires n <= |steps| && AllSpareMemory(fileOf, steps, n, path)
    requires var memory := Run(fileOf, steps[..n]).memory;
             FirstAt(memory, path, i) && |memory| <= MEMORY_LIMIT && MemoryStores(steps, n) <= Room(memory, i)
    ensures var before, after := Run(fileOf, steps[..n]).memory, Run(fileOf, steps).memory;
            && FirstAt(after, path, j) && after[j] == before[i] && |after| <= MEMORY_LIMIT
            && Room(after, j) >= Room(before, i) - MemoryStores(steps, n)
    decreases |steps|
  {
    if n == |steps| {
      assert steps[..n] == steps;
      j := i;
    } else {
      var init, step := steps[..|steps| - 1], steps[|steps| - 1];
      AllSpareInit(fileOf, steps, n, path, "");
      assert init[..n] == steps[..n];
      j := EntryStays(fileOf, init, n, path, i);
      var s := Run(fileOf, init);
      if step.StoreMemory? && Enabled(s, step) {
        assert SparesMemory(s, step, path);
        j := PutLeavesRoom(s.memory, j, path, Entry(s.log[step.reply].path, s.now, s.log[step.reply].value));
      } else {
        assert SparesMemory(s, step, path);
      }
    }
  }

  lemma {:induction false} MemoryIsBounded(fileOf: string -> string, steps: seq<Step>)
    ensures |Run(fileOf, steps).memory| <= MEMORY_LIMIT
  {
    if steps != [] {
      MemoryIsBounded(fileOf, steps[..|steps| - 1]);
    }
  }

  /** An answer stored in memory is served for 600 seconds, unless the process restarts, a newer answer for the path is stored,
      or more answers for other paths are stored than there is room for: 31 if the path was new. */
  lemma StoredAnswerIsServed(fileOf: string -> string, steps: seq<Step>, n: nat, reply: nat)
    requires n < |steps| && steps[n] == StoreMemory(reply) && reply < |Run(fileOf, steps[..n]).log|
    requires var path := Run(fileOf, steps[..n]).log[reply].path;
             AllSpareMemory(fileOf, steps, n + 1, path)
             && MemoryStores(steps, n + 1) <= RoomFor(Run(fileOf, steps[..n]).memory, path)
    requires Run(fileOf, steps).now - Run(fileOf, steps[..n]).now < 600.0
    ensures var r, s := Run(fileOf, steps[..n]).log[reply], Run(fileOf, steps);
            MemoryHit(s.memory, r.path, s.now) == Some(r.value)
  {
    var s, r := Run(fileOf, steps[..n]), Run(fileOf, steps[..n]).log[reply];
    var e := Entry(r.path, s.now, r.value);
    assert steps[..n + 1][..n] == steps[..n];
    assert Run(fileOf, steps[..n + 1]).memory == PutBounded(s.memory, e);
    MemoryIsBounded(fileOf, steps[..n]);
    var i := PutFindsRoom(s.memory, e);
    var j := EntryStays(fileOf, steps, n + 1, r.path, i);
    FindFirst(Run(fileOf, steps).memory, r.path, j);
  }

  /** The places that must go before an answer stored now for the path: those before its entry and the free ones, or all but
      its own if the path is new. */
  function RoomFor(memory: seq<Entry>, path: string): int {
    if HoldsPath(memory, path) then MEMORY_LIMIT - |memory| + PlaceOf(memory, path) else MEMORY_LIMIT - 1
  }

  function PlaceOf(memory: seq<Entry>, path: string): nat {
    if memory == [] || memory[0].path == path then 0 else 1 + PlaceOf(memory[1..], path)
  }

  lemma {:induction false} PlaceIsFirst(memory: seq<Entry>, path: string, i: nat)
    requires FirstAt(memory, path, i)
    ensures PlaceOf(memory, path) == i
  {
    if i > 0 {
      assert memory[0].path != path;
      PlaceIsFirst(memory[1..], path, i - 1);
    }
  }

  lemma PutFindsRoom(memory: seq<Entry>, e: Entry) returns (i: nat)
    requires |memory| <= MEMORY_LIMIT
    ensures FirstAt(PutBounded(memory, e), e.path, i) && PutBounded(memory, e)[i] == e
    ensures |PutBounded(memory, e)| <= MEMORY_LIMIT && Room(PutBounded(memory, e), i) == RoomFor(memory, e.path)
  {
    var at := PutKeepsPlaces(memory, e);
    var put := Put(memory, e);
    var cut := if |put| <= MEMORY_LIMIT then 0 else |put| - MEMORY_LIMIT;
    assert PutBounded(memory, e) == put[cut..];
    i := at - cut;
    if at < |memory| {
      PlaceIsFirst(memory, e.path, at);
    }
    forall k | 0 <= k < i ensures PutBounded(memory, e)[k].path != e.path {
      assert put[k + cut] == memory[k + cut];
    }
  }

  lemma {:induction false} RecordStays(fileOf: string -> string, steps: seq<Step>, n: nat, file: string)
    requires n <= |steps| && AllSpareFile(fileOf, steps, n, file) && file in Run(fileOf, steps[..n]).disk
    ensures file in Run(fileOf, steps).disk && Run(fileOf, steps).disk[file] == Run(fileOf, steps[..n]).disk[file]
    decreases |steps|
  {
    if n == |steps| {
      assert steps[..n] == steps;
    } else {
      var init, step := steps[..|steps| - 1], steps[|steps| - 1];
      AllSpareInit(fileOf, steps, n, "", file);
      assert init[..n] == steps[..n];
      RecordStays(fileOf, init, n, file);
      assert SparesFile(fileOf, Run(fileOf, init), step, file);
    }
  }

  /** An answer stored on disk is served for 600 seconds of the wall clock, unless its file is lost or written again. */
  lemma StoredRecordIsServed(fileOf: string -> string, steps: seq<Step>, n: nat, reply: nat)
    requires n < |steps| && steps[n] == StoreDisk(reply) && reply < |Run(fileOf, steps[..n]).log|
    requires AllSpareFile(fileOf, steps, n + 1, fileOf("api:" + Run(fileOf, steps[..n]).log[reply].path))
    requires Wall(Run(fileOf, steps)) - Wall(Run(fileOf, steps[..n])) < 600.0
    ensures var r, s := Run(fileOf, steps[..n]).log[reply], Run(fileOf, steps);
            DiskHit(fileOf, s.disk, r.path, Wall(s)) == Some(r.value)
  {
    var r := Run(fileOf, steps[..n]).log[reply];
    assert steps[..n + 1][..n] == steps[..n];
    RecordStays(fileOf, steps, n + 1, fileOf(ApiIdentity(r.path)));
  }

  /** What `Api` leaves in the two tiers after an answer is what three steps of a run leave, with any time between them. */
  lemma ApiStoresAreSteps(fileOf: string -> string, s: State, path: string, value: map<string, Json>, first: real, second: real)
    requires first >= 0.0 && second >= 0.0
    ensures var kept := Stored(fileOf, s, path, value, first, second);
            && kept.memory == PutBounded(s.memory, Entry(path, s.now + first, value))
            && kept.disk == Remember(fileOf, s.disk, DiskRecord(ApiIdentity(path), Wall(s) + first + second + FRESH_SECONDS, JObject(value)), Written({}))
  {
    var log := s.log + [Reply(path, value, s.now)];
    var answered := Next(fileOf, Next(fileOf, s, OriginAnswers(path, value)), Wait(first));
    assert answered == s.(log := log, now := s.now + first) && log[|s.log|] == Reply(path, value, s.now);
    var inMemory := Next(fileOf, Next(fileOf, answered, StoreMemory(|s.log|)), Wait(second));
    assert inMemory == s.(memory := PutBounded(s.memory, Entry(path, s.now + first, value)), log := log, now := s.now + first + second);
  }

  /** The origin answers; after `first` seconds the answer goes to memory, after `second` more to disk. */
  function Stored(fileOf: string -> string, s: State, path: string, value: map<string, Json>, first: real, second: real): State {
    var answered := Next(fileOf, Next(fileOf, s, OriginAnswers(path, value)), Wait(first));
    var inMemory := Next(fileOf, Next(fileOf, answered, StoreMemory(|s.log|)), Wait(second));
    Next(fileOf, inMemory, StoreDisk(|s.log|))
  }

  // ----- exactly how old a served answer can be -----

  /** In every run that stores its answers within `delay` seconds, whatever is served while the wall clock is set back by at
      most `back` seconds was answered less than `age` seconds ago. */
  ghost predicate ServesWithin(fileOf: string -> string, delay: real, back: real, age: real) {
    forall steps, path, value ::
      Prompt(fileOf, steps, delay) && SetBack(Run(fileOf, steps)) <= back && Serves(fileOf, Run(fileOf, steps), path, value) ==>
        AnsweredWithin(Run(fileOf, steps), path, value, age)
  }

  /** An answer held for `delay` seconds before it is stored on disk, and asked for `wait` seconds later, the wall clock
      having been set back meanwhile. */
  function LateRun(path: string, value: map<string, Json>, delay: real, back: real, wait: real): seq<Step> {
    [OriginAnswers(path, value), Wait(delay), StoreDisk(0), SetWall(-back), Wait(wait)]
  }

  /** The state those steps lead to. */
  function LateState(fileOf: string -> string, path: string, value: map<string, Json>, delay: real, back: real, wait: real): State {
    State([], map[fileOf(ApiIdentity(path)) := DiskRecord(ApiIdentity(path), delay + FRESH_SECONDS, JObject(value))],
          [Reply(path, value, 0.0)], delay + wait, -back, 0.0)
  }

  lemma RunStep(fileOf: string -> string, steps: seq<Step>, step: Step, delay: real)
    requires Prompt(fileOf, steps, delay) && StoresWithin(Run(fileOf, steps), step, delay)
    ensures Prompt(fileOf, steps + [step], delay) && Run(fileOf, steps + [step]) == Next(fileOf, Run(fileOf, steps), step)
  {
    assert (steps + [step])[..|steps|] == steps;
  }

  lemma LateRunWaits(fileOf: string -> string, path: string, value: map<string, Json>, delay: real)
    requires delay >= 0.0
    ensures var steps := [OriginAnswers(path, value), Wait(delay)];
            Prompt(fileOf, steps, delay) && Run(fileOf, steps) == State([], map[], [Reply(path, value, 0.0)], delay, 0.0, 0.0)
  {
    var a, b := OriginAnswers(path, value), Wait(delay);
    assert [] + [a] == [a] && [a] + [b] == [a, b];
    RunStep(fileOf, [], a, delay);
    RunStep(fileOf, [a], b, delay);
  }

  lemma LateRunStores(fileOf: string -> string, path: string, value: map<string, Json>, delay: real)
    requires delay >= 0.0
    ensures var steps := [OriginAnswers(path, value), Wait(delay), StoreDisk(0)];
            Prompt(fileOf, steps, delay) && Run(fileOf, steps) == LateState(fileOf, path, value, delay, 0.0, 0.0)
  {
    var waited, c := [OriginAnswers(path, value), Wait(delay)], StoreDisk(0);
    LateRunWaits(fileOf, path, value, delay);
    RunStep(fileOf, waited, c, delay);
    assert waited + [c] == [OriginAnswers(path, value), Wait(delay), StoreDisk(0)];
  }

  lemma LateRunLeads(fileOf: string -> string, path: string, value: map<string, Json>, delay: real, back: real, wait: real)
    requires delay >= 0.0 && back >= 0.0 && wait >= 0.0
    ensures Prompt(fileOf, LateRun(path, value, delay, back, wait), delay)
    ensures Run(fileOf, LateRun(path, value, delay, back, wait)) == LateState(fileOf, path, value, delay, back, wait)
  {
    var stored, d, e := [OriginAnswers(path, value), Wait(delay), StoreDisk(0)], SetWall(-back), Wait(wait);
    LateRunStores(fileOf, path, value, delay);
    RunStep(fileOf, stored, d, delay);
    RunStep(fileOf, stored + [d], e, delay);
    assert stored + [d] + [e] == LateRun(path, value, delay, back, wait);
  }

  lemma LateStateServes(fileOf: string -> string, path: string, value: map<string, Json>, delay: real, back: real, wait: real, age: real)
    requires wait < FRESH_SECONDS + back && delay + wait >= age
    ensures var s := LateState(fileOf, path, value, delay, back, wait);
            Serves(fileOf, s, path, value) && SetBack(s) == back && !AnsweredWithin(s, path, value, age)
  {
  }

  /** The age of what is served is bounded by 600 seconds, plus the delay before storing, plus the time the wall clock is set
      back, and by nothing less: a bound of 600 seconds or more holds of every run if and only if those two fit into what
      it adds. (With a negative delay nothing can be stored, and the clock is never set back by a negative time.) */
  lemma ServesWithinIff(fileOf: string -> string, delay: real, back: real, age: real)
    requires age >= FRESH_SECONDS
    ensures ServesWithin(fileOf, delay, back, age) <==> delay < 0.0 || back < 0.0 || delay + back <= age - FRESH_SECONDS
  {
    if delay < 0.0 || back < 0.0 || delay + back <= age - FRESH_SECONDS {
      forall steps, path, value
        | Prompt(fileOf, steps, delay) && SetBack(Run(fileOf, steps)) <= back && Serves(fileOf, Run(fileOf, steps), path, value)
        ensures AnsweredWithin(Run(fileOf, steps), path, value, age)
      {
        HitsWereAnsweredRecently(fileOf, steps, delay, path, value);
      }
    } else {
      var wait := if age <= delay then 0.0 else age - delay;
      LateRunLeads(fileOf, "", map[], delay, back, wait);
      LateStateServes(fileOf, "", map[], delay, back, wait, age);
      assert Serves(fileOf, Run(fileOf, LateRun("", map[], delay, back, wait)), "", map[]);
    }
  }

  /** The promised 600 seconds hold of every run if and only if answers are stored with no delay at all and the wall clock is
      not set back. */
  lemma SixHundredSecondsIff(fileOf: string -> string, delay: real, back: real)
    ensures ServesWithin(fileOf, delay, back, FRESH_SECONDS) <==> delay < 0.0 || back < 0.0 || (delay == 0.0 && back == 0.0)
  {
    ServesWithinIff(fileOf, delay, back, FRESH_SECONDS);
  }

  /** An answer held for 100 seconds before it is stored is still served 699 seconds after it was given; one stored at once
      is still served after 4,199 seconds when the wall clock was set back by an hour. */
  lemma StoringLateServesOlder(fileOf: string -> string, path: string, value: map<string, Json>)
    ensures Prompt(fileOf, LateRun(path, value, 100.0, 0.0, 599.0), 100.0) && Prompt(fileOf, LateRun(path, value, 0.0, 3600.0, 4199.0), 0.0)
    ensures var s := Run(fileOf, LateRun(path, value, 100.0, 0.0, 599.0)); Serves(fileOf, s, path, value) && !AnsweredWithin(s, path, value, 699.0)
    ensures var s := Run(fileOf, LateRun(path, value, 0.0, 3600.0, 4199.0)); Serves(fileOf, s, path, value) && !AnsweredWithin(s, path, value, 4199.0)
  {
    LateRunLeads(fileOf, path, value, 100.0, 0.0, 599.0);
    LateStateServes(fileOf, path, value, 100.0, 0.0, 599.0, 699.0);
    LateRunLeads(fileOf, path, value, 0.0, 3600.0, 4199.0);
    LateStateServes(fileOf, path, value, 0.0, 3600.0, 4199.0, 4199.0);
  }
}
