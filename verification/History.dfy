/** The transfer history on disk and in memory (`storage/history.rs`). JSON is any lossless encoding of record lists. */
module History {
  import opened Prelude

  datatype RecordStatus = Completed | Failed | Cancelled

  datatype Record = Record(
    id: Uuid, fileName: string, size: U64Int, peer: Uuid, peerName: string, outgoing: bool,
    status: RecordStatus, sha256: Option<string>, startedAt: int, completedAt: int, savedPath: Option<Path>)

  type Records = map<Uuid, Record>

  /** Records are filed under their own ids. */
  ghost predicate WellKeyed(m: Records) {
    forall id :: id in m ==> m[id].id == id
  }

  datatype Codec = Codec(encode: seq<Record> -> Bytes, decode: Bytes -> Option<seq<Record>>)

  ghost predicate Lossless(codec: Codec) {
    forall list :: codec.decode(codec.encode(list)) == Some(list) && codec.encode(list) != []
  }

  /** The history file and the temporary file next to it. */
  datatype Disk = Disk(file: Option<Bytes>, temp: Option<Bytes>)

  /** Filing a list: a later record replaces an earlier one with the same id. */
  function FromList(list: seq<Record>): (m: Records)
    ensures WellKeyed(m)
  {
    if list == [] then map[]
    else
      var last := list[|list| - 1];
      FromList(list[..|list| - 1])[last.id := last]
  }

  /** How looking at the history file goes: whether it exists, and what it holds, can each fail to be found out. */
  datatype Look = Seen | CheckFailed | ReadFailed

  /** What a store finds on start-up when looking succeeds. The temporary file is never looked at. */
  function Restore(codec: Codec, disk: Disk): Result<Records, ()> {
    match disk.file
    case None => Ok(map[])
    case Some(raw) =>
      if raw == [] then Ok(map[])
      else
        match codec.decode(raw)
        case None => Err(())
        case Some(list) => Ok(FromList(list))
  }

  /** A file whose existence cannot be checked is taken to be missing; one that cannot be read is an error. */
  function Open(codec: Codec, disk: Disk, look: Look): Result<Records, ()> {
    if look.CheckFailed? then Ok(map[])
    else if look.ReadFailed? && disk.file.Some? then Err(())
    else Restore(codec, disk)
  }

  /** `order` is some enumeration of the map: every key once. */
  ghost predicate Enumerates(order: seq<Uuid>, m: Records) {
    && (forall id :: id in m <==> id in order)
    && (forall i, j :: 0 <= i < j < |order| ==> order[i] != order[j])
  }

  function ListIn(order: seq<Uuid>, m: Records): seq<Record>
    requires forall id :: id in order ==> id in m
  {
    seq(|order|, i requires 0 <= i < |order| => m[order[i]])
  }

  /** A list of a map's values, in any order, files back to the same map. */
  lemma {:induction false} ListRebuildsMap(order: seq<Uuid>, m: Records)
    requires WellKeyed(m) && forall id :: id in order ==> id in m
    ensures FromList(ListIn(order, m)) == map id | id in m && id in order :: m[id]
  {
    if order != [] {
      var init := order[..|order| - 1];
      ListRebuildsMap(init, m);
      var list := ListIn(order, m);
      assert list[..|list| - 1] == ListIn(init, m);
      assert order == init + [order[|order| - 1]];
    }
  }

  lemma EnumerationRebuildsMap(order: seq<Uuid>, m: Records)
    requires WellKeyed(m) && Enumerates(order, m)
    ensures FromList(ListIn(order, m)) == m
  {
    ListRebuildsMap(order, m);
  }

  /** How far a `persist` got before it failed or the process died. */
  datatype Progress =
    | NothingWritten                // directory could not be made
    | TempCut(n: nat)               // temporary file created, first `n` bytes written
    | Renamed                       // all done

  /** The disk after a `persist` of `m` enumerated as `order` that got as far as `progress`. */
  function Persist(codec: Codec, disk: Disk, m: Records, order: seq<Uuid>, progress: Progress): Disk
    requires forall id :: id in order ==> id in m
  {
    var json := codec.encode(ListIn(order, m));
    match progress
    case NothingWritten => disk
    case TempCut(n) => disk.(temp := Some(if n < |json| then json[..n] else json))
    case Renamed => Disk(Some(json), None)
  }

  /** Whatever the order, the leftovers and the point of the crash, a load finds the old map or the new one. */
  lemma PersistIsAtomic(codec: Codec, disk: Disk, m: Records, order: seq<Uuid>, progress: Progress)
    requires Lossless(codec) && WellKeyed(m) && Enumerates(order, m)
    ensures Restore(codec, Persist(codec, disk, m, order, progress)) ==
            if progress.Renamed? then Ok(m) else Restore(codec, disk)
  {
    EnumerationRebuildsMap(order, m);
    if progress.Renamed? {
      var list := ListIn(order, m);
      assert codec.decode(codec.encode(list)) == Some(list) && codec.encode(list) != [];
    }
  }

  datatype Mutation = Add(record: Record) | Clear

  function Mutate(m: Records, change: Mutation): Records {
    match change
    case Add(record) => m[record.id := record]
    case Clear => map[]
  }

  /** One thing that happens to the store: a mutation whose `persist` gets so far, or a crash and restart. */
  datatype Happening = Mutated(change: Mutation, order: seq<Uuid>, progress: Progress) | Restarted(look: Look)

  /** A running store: memory, disk, and for the record the map that was last fully persisted. */
  datatype Store = Store(memory: Records, disk: Disk, durable: Records)

  /** A restart that cannot read the file leaves no store running, so the run goes on only after one that can. */
  ghost predicate Legal(codec: Codec, s: Store, h: Happening) {
    match h
    case Mutated(change, order, _) => Enumerates(order, Mutate(s.memory, change))
    case Restarted(look) => Open(codec, s.disk, look).Ok?
  }

  ghost function Step(codec: Codec, s: Store, h: Happening): Store
    requires Legal(codec, s, h)
  {
    match h
    case Mutated(change, order, progress) =>
      var memory := Mutate(s.memory, change);
      Store(memory, Persist(codec, s.disk, memory, order, progress), if progress.Renamed? then memory else s.durable)
    case Restarted(look) => s.(memory := Open(codec, s.disk, look).value)
  }

  ghost predicate LegalRun(codec: Codec, s: Store, run: seq<Happening>)
    decreases |run|
  {
    run != [] ==> Legal(codec, s, run[0]) && LegalRun(codec, Step(codec, s, run[0]), run[1..])
  }

  ghost function Run(codec: Codec, s: Store, run: seq<Happening>): Store
    requires LegalRun(codec, s, run)
    decreases |run|
  {
    if run == [] then s else Run(codec, Step(codec, s, run[0]), run[1..])
  }

  ghost predicate Consistent(codec: Codec, s: Store) {
    WellKeyed(s.memory) && WellKeyed(s.durable) && Restore(codec, s.disk) == Ok(s.durable)
  }

  /**
   * For every history of additions, clears, failed writes and crashes anywhere inside a `persist`: a load always
   * succeeds and finds exactly the map of the last mutation that was fully persisted.
   */
  lemma {:induction false} LoadFindsLastPersisted(codec: Codec, s: Store, run: seq<Happening>)
    requires Lossless(codec) && Consistent(codec, s) && LegalRun(codec, s, run)
    ensures Consistent(codec, Run(codec, s, run))
    decreases |run|
  {
    if run != [] {
      var h := run[0];
      var s' := Step(codec, s, h);
      if h.Mutated? {
        PersistIsAtomic(codec, s.disk, Mutate(s.memory, h.change), h.order, h.progress);
      }
      LoadFindsLastPersisted(codec, s', run[1..]);
    }
  }

  /** After this, memory may differ from what the file holds. */
  predicate Unsettles(h: Happening) {
    if h.Mutated? then !h.progress.Renamed? else !h.look.Seen?
  }

  /** Every unfinished rewrite, and every restart that did not see the file, is at once followed by one that did. */
  predicate Settled(run: seq<Happening>) {
    forall i :: 0 <= i < |run| && Unsettles(run[i]) ==>
      i + 1 < |run| && run[i + 1].Restarted? && !Unsettles(run[i + 1])
  }

  lemma SettledRest(run: seq<Happening>, k: nat)
    requires Settled(run) && k <= |run|
    ensures Settled(run[k..])
  {
    var rest := run[k..];
    forall i | 0 <= i < |rest| && Unsettles(rest[i])
      ensures i + 1 < |rest| && rest[i + 1].Restarted? && !Unsettles(rest[i + 1])
    {
      assert Unsettles(run[k + i]);
    }
  }

  /** Every happening keeps the disk consistent, and unless it unsettles, memory holds what the file does afterwards. */
  lemma StepSettles(codec: Codec, s: Store, h: Happening)
    requires Lossless(codec) && Consistent(codec, s) && Legal(codec, s, h)
    ensures var s' := Step(codec, s, h);
            && Consistent(codec, s')
            && (!Unsettles(h) ==> s'.memory == s'.durable)
  {
    if h.Mutated? {
      PersistIsAtomic(codec, s.disk, Mutate(s.memory, h.change), h.order, h.progress);
    }
  }

  /** After any number of crashes inside rewrites, each with its restart, memory and disk hold the same map. */
  lemma {:induction false} MemoryIsDurable(codec: Codec, s: Store, run: seq<Happening>)
    requires Lossless(codec) && Consistent(codec, s) && s.memory == s.durable && LegalRun(codec, s, run)
    requires Settled(run)
    ensures Run(codec, s, run).memory == Run(codec, s, run).durable
    ensures Consistent(codec, Run(codec, s, run))
    decreases |run|
  {
    hide Consistent, Lossless, Step, Legal, Unsettles;
    if run != [] {
      var s1 := Step(codec, s, run[0]);
      StepSettles(codec, s, run[0]);
      if Unsettles(run[0]) {
        StepSettles(codec, s1, run[1]);
        SettledRest(run, 2);
        assert run[1..][1..] == run[2..] && run[1..][0] == run[1];
        MemoryIsDurable(codec, Step(codec, s1, run[1]), run[2..]);
      } else {
        SettledRest(run, 1);
        MemoryIsDurable(codec, s1, run[1..]);
      }
    }
  }

  /**
   * A crash inside a mutation leaves exactly the map before it or the map after it, whatever crashes inside
   * earlier mutations the store has already been restarted from.
   */
  lemma CrashLeavesBeforeOrAfter(codec: Codec, s: Store, run: seq<Happening>, h: Happening)
    requires Lossless(codec) && Consistent(codec, s) && s.memory == s.durable && LegalRun(codec, s, run)
    requires Settled(run)
    requires h.Mutated? && Legal(codec, Run(codec, s, run), h)
    ensures var before := Run(codec, s, run).memory;
            var found := Restore(codec, Step(codec, Run(codec, s, run), h).disk);
            found == Ok(if h.progress.Renamed? then Mutate(before, h.change) else before)
  {
    MemoryIsDurable(codec, s, run);
    var t := Run(codec, s, run);
    PersistIsAtomic(codec, t.disk, Mutate(t.memory, h.change), h.order, h.progress);
  }

  /**
   * Why restarts must see the file: one that cannot check its existence starts empty, and the next addition
   * replaces the whole history on disk by one record.
   */
  lemma BlindRestartLosesHistory(codec: Codec, s: Store, record: Record)
    requires Lossless(codec) && Consistent(codec, s)
    ensures var run := [Restarted(CheckFailed), Mutated(Mutation.Add(record), [record.id], Renamed)];
            LegalRun(codec, s, run) && Restore(codec, Run(codec, s, run).disk) == Ok(map[record.id := record])
  {
    var restart, add := Restarted(CheckFailed), Mutated(Mutation.Add(record), [record.id], Renamed);
    var s1 := Step(codec, s, restart);
    assert Legal(codec, s1, add);
    assert [restart, add][1..] == [add] && [add][1..] == [];
    assert LegalRun(codec, s1, [add]);
    assert Run(codec, s, [restart, add]) == Run(codec, s1, [add]) == Step(codec, s1, add);
    PersistIsAtomic(codec, s1.disk, map[record.id := record], [record.id], Renamed);
  }

  /** Exactly when a completed addition after a restart keeps the history: its file was seen, or held nothing else. */
  lemma RestartKeepsHistoryIff(codec: Codec, s: Store, look: Look, record: Record, order: seq<Uuid>)
    requires Lossless(codec) && Consistent(codec, s) && !look.ReadFailed?
    requires Enumerates(order, Mutate(if look.Seen? then s.durable else map[], Mutation.Add(record)))
    ensures var run := [Restarted(look), Mutated(Mutation.Add(record), order, Renamed)];
            && LegalRun(codec, s, run)
            && (Restore(codec, Run(codec, s, run).disk) == Ok(s.durable[record.id := record]) <==>
                  look.Seen? || s.durable.Keys <= {record.id})
  {
    var restart, add := Restarted(look), Mutated(Mutation.Add(record), order, Renamed);
    var s1 := Step(codec, s, restart);
    assert s1.memory == if look.Seen? then s.durable else map[];
    assert [restart, add][1..] == [add] && [add][1..] == [];
    assert LegalRun(codec, s1, [add]);
    assert Run(codec, s, [restart, add]) == Run(codec, s1, [add]) == Step(codec, s1, add);
    PersistIsAtomic(codec, s1.disk, Mutate(s1.memory, add.change), order, Renamed);
    var kept, found := s.durable[record.id := record], Mutate(s1.memory, add.change);
    if look.CheckFailed? {
      assert found.Keys == {record.id} && kept.Keys == s.durable.Keys + {record.id};
      assert s.durable.Keys <= {record.id} ==> kept == found;
    }
  }

  /** After a completed clear a load finds nothing, and after a completed addition the old records and the new one. */
  lemma MutationIsFound(codec: Codec, s: Store, change: Mutation, order: seq<Uuid>)
    requires Lossless(codec) && WellKeyed(s.memory) && Legal(codec, s, Mutated(change, order, Renamed))
    ensures Restore(codec, Step(codec, s, Mutated(change, order, Renamed)).disk) ==
            match change
            case Add(record) => Ok(s.memory[record.id := record])
            case Clear => Ok(map[])
  {
    PersistIsAtomic(codec, s.disk, Mutate(s.memory, change), order, Renamed);
  }

  /** When a list names an id twice, the later record stands, and all others as the list before it left them. */
  lemma LaterRecordStands(list: seq<Record>, record: Record, id: Uuid)
    ensures var m := FromList(list + [record]);
            && FromList([]) == map[]
            && record.id in m && m[record.id] == record
            && (id != record.id ==> (id in m <==> id in FromList(list)))
            && (id != record.id && id in m ==> m[id] == FromList(list)[id])
  {
    assert (list + [record])[..|list|] == list;
  }

  /** Latest first; among equals the order is kept. */
  function InsertByCompletion(sorted: seq<Record>, r: Record): seq<Record> {
    if sorted == [] || sorted[|sorted| - 1].completedAt >= r.completedAt then sorted + [r]
    else InsertByCompletion(sorted[..|sorted| - 1], r) + [sorted[|sorted| - 1]]
  }

  function SortByCompletion(list: seq<Record>): seq<Record> {
    if list == [] then [] else InsertByCompletion(SortByCompletion(list[..|list| - 1]), list[|list| - 1])
  }

  ghost predicate Descending(list: seq<Record>) {
    forall i, j :: 0 <= i < j < |list| ==> list[i].completedAt >= list[j].completedAt
  }

  lemma {:induction false} InsertAddsOne(sorted: seq<Record>, r: Record)
    ensures multiset(InsertByCompletion(sorted, r)) == multiset(sorted) + multiset{r}
    ensures forall x :: x in InsertByCompletion(sorted, r) ==> x in sorted || x == r
  {
    if sorted != [] && sorted[|sorted| - 1].completedAt < r.completedAt {
      var init, last := sorted[..|sorted| - 1], sorted[|sorted| - 1];
      InsertAddsOne(init, r);
      assert sorted == init + [last];
    }
  }

  lemma {:induction false} InsertKeepsOrder(sorted: seq<Record>, r: Record)
    requires Descending(sorted)
    ensures Descending(InsertByCompletion(sorted, r))
  {
    if sorted != [] && sorted[|sorted| - 1].completedAt < r.completedAt {
      var init, last := sorted[..|sorted| - 1], sorted[|sorted| - 1];
      InsertKeepsOrder(init, r);
      InsertAddsOne(init, r);
      var s := InsertByCompletion(init, r);
      hide InsertByCompletion;
      assert forall i :: 0 <= i < |s| ==> s[i] in s;
      assert forall x :: x in init ==> x.completedAt >= last.completedAt;
    }
  }

  lemma {:induction false} SortKeeps(list: seq<Record>)
    ensures Descending(SortByCompletion(list)) && multiset(SortByCompletion(list)) == multiset(list)
  {
    if list != [] {
      var init := list[..|list| - 1];
      SortKeeps(init);
      InsertKeepsOrder(SortByCompletion(init), list[|list| - 1]);
      InsertAddsOne(SortByCompletion(init), list[|list| - 1]);
      assert list == init + [list[|list| - 1]];
    }
  }

  /** The store itself. */
  class HistoryStore {
    const codec: Codec
    var records: Records
    var disk: Disk

    ghost predicate Valid()
      reads this
    {
      WellKeyed(records)
    }

    /** Some enumeration of the map; callers learn nothing about the order. */
    method Enumerate() returns (order: seq<Uuid>)
      ensures Enumerates(order, records)
    {
      order := [];
      var todo := records.Keys;
      while todo != {}
        invariant todo <= records.Keys
        invariant forall id :: id in records <==> id in order || id in todo
        invariant forall id :: id in order ==> id !in todo
        invariant forall i, j :: 0 <= i < j < |order| ==> order[i] != order[j]
        decreases todo
      {
        var id :| id in todo;
        order, todo := order + [id], todo - {id};
      }
    }

    constructor (codec: Codec, disk: Disk, records: Records)
      ensures this.codec == codec && this.disk == disk && this.records == records
    {
      this.codec, this.disk, this.records := codec, disk, records;
    }

    /** Opens the store, or fails on a file that cannot be read or decoded. */
    static method Load(codec: Codec, disk: Disk, look: Look) returns (r: Result<HistoryStore, ()>)
      ensures r.Err? <==>
              && look != CheckFailed && disk.file.Some?
              && (look.ReadFailed? || (disk.file.value != [] && codec.decode(disk.file.value).None?))
      ensures r.Ok? ==> fresh(r.value) && r.value.Valid() && r.value.codec == codec && r.value.disk == disk
      ensures r.Ok? ==>
                r.value.records ==
                if look.CheckFailed? || disk.file.None? || disk.file.value == [] then map[]
                else FromList(codec.decode(disk.file.value).value)
      ensures r.Ok? && !look.CheckFailed? ==> Ok(r.value.records) == Restore(codec, disk)
    {
      var records: Records := map[];
      if !look.CheckFailed? && disk.file.Some? {
        if look.ReadFailed? {
          return Err(());
        }
        var raw := disk.file.value;
        if raw != [] {
          var list := codec.decode(raw);
          if list.None? {
            return Err(());
          }
          records := FromList(list.value);
        }
      }
      var store := new HistoryStore(codec, disk, records);
      r := Ok(store);
    }

    /** Writes the whole map to the temporary file, then renames it over the history file. */
    method PersistAll(progress: Progress) returns (ok: bool)
      requires Lossless(codec) && Valid()
      modifies this`disk
      ensures ok <==> progress.Renamed?
      ensures exists order :: Enumerates(order, records) && disk == Persist(codec, old(disk), records, order, progress)
      ensures progress.NothingWritten? ==> disk == old(disk)
      ensures progress.TempCut? ==> disk.file == old(disk).file
      ensures progress.TempCut? ==>
                exists order, rest :: Enumerates(order, records) && disk.temp.Some?
                                      && disk.temp.value + rest == codec.encode(ListIn(order, records))
                                      && (|disk.temp.value| == progress.n || rest == [])
      ensures progress.Renamed? ==> disk.temp == None
      ensures progress.Renamed? ==>
                exists order :: Enumerates(order, records) && disk.file == Some(codec.encode(ListIn(order, records)))
      ensures Restore(codec, disk) == if ok then Ok(records) else Restore(codec, old(disk))
    {
      var order := Enumerate();
      PersistIsAtomic(codec, disk, records, order, progress);
      var json := codec.encode(ListIn(order, records));
      ok := progress.Renamed?;
      match progress {
        case NothingWritten =>
        case TempCut(n) =>
          disk := disk.(temp := Some(if n < |json| then json[..n] else json));
          assert disk.temp.value + (if n < |json| then json[n..] else []) == json;
        case Renamed =>
          disk := disk.(temp := Some(json));
          disk := Disk(disk.temp, None);
      }
      assert disk == Persist(codec, old(disk), records, order, progress);
    }

    method Add(record: Record, progress: Progress) returns (ok: bool)
      requires Lossless(codec) && Valid()
      modifies this`records, this`disk
      ensures Valid() && records == Mutate(old(records), Mutation.Add(record)) == old(records)[record.id := record]
      ensures Restore(codec, disk) == if ok then Ok(records) else Restore(codec, old(disk))
      ensures ok <==> progress.Renamed?
    {
      records := records[record.id := record];
      ok := PersistAll(progress);
    }

    method Clear(progress: Progress) returns (ok: bool)
      requires Lossless(codec) && Valid()
      modifies this`records, this`disk
      ensures Valid() && records == Mutate(old(records), Mutation.Clear) == map[]
      ensures Restore(codec, disk) == if ok then Ok(records) else Restore(codec, old(disk))
      ensures ok <==> progress.Renamed?
    {
      records := map[];
      ok := PersistAll(progress);
    }

    /** The records, each once, latest completion first. */
    method List() returns (list: seq<Record>)
      requires Valid()
      ensures Descending(list)
      ensures exists order :: Enumerates(order, records) && multiset(list) == multiset(ListIn(order, records))
    {
      var order := Enumerate();
      SortKeeps(ListIn(order, records));
      list := SortByCompletion(ListIn(order, records));
    }
  }
}
