/**
 * The single aggregator `EventBatcher`: it folds `(library_pk, event)` messages into a
 * per-library cache of event sets and flushes the cache as one `DBDiffTask` per library.
 */
module EventBatching {
  import opened Wrappers
  import opened ComicName
  import opened WatchEvents

  /** `DBDiffTask`: the change-set of one library, with its seven collections. */
  datatype Task = Task(
    libraryId: int,
    dirsMoved: map<Path, Path>,
    filesMoved: map<Path, Path>,
    filesModified: set<Path>,
    filesCreated: set<Path>,
    dirsDeleted: set<Path>,
    dirsModified: set<Path>,
    filesDeleted: set<Path>)

  /** The names of the seven collections of a task, as `DBDiffTask`'s keyword arguments. */
  const TaskFields: set<string> :=
    {"dirs_moved", "files_moved", "files_modified", "files_created", "dirs_deleted", "dirs_modified", "files_deleted"}

  /** `EventBatcher._field_by_event`: "dirs_" or "files_" followed by the event type. */
  function FieldByEvent(e: Event): (r: string)
    // the flag decides the "dirs_"/"files_" half
    ensures e.isDir ==> |r| > 5 && r[..5] == "dirs_"
    ensures !e.isDir ==> |r| > 6 && r[..6] == "files_"
    // the one name the batcher never builds a collection for belongs to directory creation alone
    ensures r == "dirs_created" <==> IsDirCreated(e)
  {
    (if e.isDir then "dir" else "file") + "s_" + KindName(e.kind)
  }

  lemma KindNameInjective(a: Kind, b: Kind)
    ensures KindName(a) == KindName(b) <==> a == b
  {
    if KindName(a) == KindName(b) {
      assert KindName(a)[0] == KindName(b)[0];
      if KindName(a)[0] == 'm' {
        assert KindName(a)[1] == KindName(b)[1];
      }
    }
  }

  /** Two events target the same field exactly when they agree on directory flag and kind. */
  lemma FieldByEventInjective(a: Event, b: Event)
    ensures FieldByEvent(a) == FieldByEvent(b) <==> a.isDir == b.isDir && a.kind == b.kind
  {
    var pa := (if a.isDir then "dir" else "file") + "s_";
    var pb := (if b.isDir then "dir" else "file") + "s_";
    if FieldByEvent(a) == FieldByEvent(b) {
      assert FieldByEvent(a)[0] == FieldByEvent(b)[0];
      assert a.isDir == b.isDir;
      assert pa == pb;
      assert FieldByEvent(a)[|pa|..] == KindName(a.kind);
      assert FieldByEvent(b)[|pb|..] == KindName(b.kind);
      KindNameInjective(a.kind, b.kind);
    }
  }

  /** A representative event of each directory flag and kind. */
  function Sample(isDir: bool, kind: Kind): Event
  {
    RawEvent(kind, isDir, "", if kind == Moved then Some("") else None)
  }

  /** Each directory field name is chosen by exactly one kind of directory event. */
  lemma FieldByEventDirNames(e: Event)
    ensures FieldByEvent(e) == "dirs_moved" <==> e.isDir && e.kind == Moved
    ensures FieldByEvent(e) == "dirs_deleted" <==> e.isDir && e.kind == Deleted
    ensures FieldByEvent(e) == "dirs_modified" <==> e.isDir && e.kind == Modified
    ensures FieldByEvent(e) == "dirs_created" <==> e.isDir && e.kind == Created
  {
    assert FieldByEvent(Sample(true, Moved)) == "dirs_moved";
    assert FieldByEvent(Sample(true, Deleted)) == "dirs_deleted";
    assert FieldByEvent(Sample(true, Modified)) == "dirs_modified";
    assert FieldByEvent(Sample(true, Created)) == "dirs_created";
    FieldByEventInjective(e, Sample(true, Moved));
    FieldByEventInjective(e, Sample(true, Deleted));
    FieldByEventInjective(e, Sample(true, Modified));
    FieldByEventInjective(e, Sample(true, Created));
  }

  /** Each file field name is chosen by exactly one kind of file event. */
  lemma FieldByEventFileNames(e: Event)
    ensures FieldByEvent(e) == "files_moved" <==> !e.isDir && e.kind == Moved
    ensures FieldByEvent(e) == "files_modified" <==> !e.isDir && e.kind == Modified
    ensures FieldByEvent(e) == "files_created" <==> !e.isDir && e.kind == Created
    ensures FieldByEvent(e) == "files_deleted" <==> !e.isDir && e.kind == Deleted
  {
    assert FieldByEvent(Sample(false, Moved)) == "files_moved";
    assert FieldByEvent(Sample(false, Modified)) == "files_modified";
    assert FieldByEvent(Sample(false, Created)) == "files_created";
    assert FieldByEvent(Sample(false, Deleted)) == "files_deleted";
    FieldByEventInjective(e, Sample(false, Moved));
    FieldByEventInjective(e, Sample(false, Modified));
    FieldByEventInjective(e, Sample(false, Created));
    FieldByEventInjective(e, Sample(false, Deleted));
  }

  /** Every event except a directory creation targets one of the task's seven collections. */
  lemma FieldByEventIsTaskField(e: Event)
    ensures FieldByEvent(e) in TaskFields <==> !IsDirCreated(e)
  {
    FieldByEventDirNames(e);
    FieldByEventFileNames(e);
  }

  /** The source paths of the events of one directory flag and kind. */
  function Sources(events: set<Event>, isDir: bool, kind: Kind): set<Path>
  {
    set e | e in events && e.isDir == isDir && e.kind == kind :: e.src
  }

  /**
   * A moved map built from `events`: its keys are the sources of the moves of that flag, and
   * each key maps to the destination of some such move from it. Which move wins when one
   * source was moved to several destinations depends on the set's iteration order, so that
   * choice is left open.
   */
  predicate IsMovedMap(events: set<Event>, isDir: bool, m: map<Path, Path>)
  {
    m.Keys == Sources(events, isDir, Moved) &&
    forall k :: k in m ==> exists e :: e in events && e.isDir == isDir && e.kind == Moved && e.src == k && e.dest == Some(m[k])
  }

  /** Adding one event adds its source to the sources of its own flag and kind only. */
  lemma SourcesAdd(done: set<Event>, e: Event)
    ensures forall isDir, kind ::
      Sources(done + {e}, isDir, kind) == Sources(done, isDir, kind) + (if e.isDir == isDir && e.kind == kind then {e.src} else {})
  {
  }

  /** `params[field][src] = dest` for a move of this flag; any other event leaves the map as it is. */
  lemma MovedMapAdd(done: set<Event>, e: Event, isDir: bool, m: map<Path, Path>)
    requires IsMovedMap(done, isDir, m)
    ensures e.kind == Moved && e.isDir == isDir ==> IsMovedMap(done + {e}, isDir, m[e.src := e.dest.value])
    ensures !(e.kind == Moved && e.isDir == isDir) ==> IsMovedMap(done + {e}, isDir, m)
  {
    SourcesAdd(done, e);
  }

  /** `task` is a task `_create_task_from_events(libraryId, events)` can return. */
  predicate IsTaskFor(libraryId: int, events: set<Event>, task: Task)
  {
    task.libraryId == libraryId &&
    IsMovedMap(events, true, task.dirsMoved) &&
    IsMovedMap(events, false, task.filesMoved) &&
    task.filesModified == Sources(events, false, Modified) &&
    task.filesCreated == Sources(events, false, Created) &&
    task.dirsDeleted == Sources(events, true, Deleted) &&
    task.dirsModified == Sources(events, true, Modified) &&
    task.filesDeleted == Sources(events, false, Deleted)
  }

  /**
   * One step of `_create_task_from_events`: after `event` is written into the collection that
   * `FieldByEvent` names, `task` describes the events seen so far plus `event`.
   */
  lemma TaskStep(libraryId: int, done: set<Event>, event: Event, task: Task)
    requires IsTaskFor(libraryId, done, task) && !IsDirCreated(event)
    ensures FieldByEvent(event) == "dirs_moved" ==> IsTaskFor(libraryId, done + {event}, task.(dirsMoved := task.dirsMoved[event.src := event.dest.value]))
    ensures FieldByEvent(event) == "files_moved" ==> IsTaskFor(libraryId, done + {event}, task.(filesMoved := task.filesMoved[event.src := event.dest.value]))
    ensures FieldByEvent(event) == "files_modified" ==> IsTaskFor(libraryId, done + {event}, task.(filesModified := task.filesModified + {event.src}))
    ensures FieldByEvent(event) == "files_created" ==> IsTaskFor(libraryId, done + {event}, task.(filesCreated := task.filesCreated + {event.src}))
    ensures FieldByEvent(event) == "dirs_deleted" ==> IsTaskFor(libraryId, done + {event}, task.(dirsDeleted := task.dirsDeleted + {event.src}))
    ensures FieldByEvent(event) == "dirs_modified" ==> IsTaskFor(libraryId, done + {event}, task.(dirsModified := task.dirsModified + {event.src}))
    ensures FieldByEvent(event) == "files_deleted" ==> IsTaskFor(libraryId, done + {event}, task.(filesDeleted := task.filesDeleted + {event.src}))
    ensures event.kind == Moved ==> FieldByEvent(event) == "dirs_moved" || FieldByEvent(event) == "files_moved"
    ensures event.kind != Moved ==>
      FieldByEvent(event) == "files_modified" || FieldByEvent(event) == "files_created" || FieldByEvent(event) == "dirs_deleted" ||
      FieldByEvent(event) == "dirs_modified" || FieldByEvent(event) == "files_deleted"
  {
    FieldByEventDirNames(event);
    FieldByEventFileNames(event);
    SourcesAdd(done, event);
    MovedMapAdd(done, event, true, task.dirsMoved);
    MovedMapAdd(done, event, false, task.filesMoved);
  }

  /** No directory creation among the events: the shape `_create_task_from_events` can handle. */
  predicate NoDirCreated(events: set<Event>)
  {
    forall e :: e in events ==> !IsDirCreated(e)
  }

  /** A non-empty pending set for every cached library, with no directory creations in it. */
  predicate CacheOk(cache: map<int, set<Event>>)
  {
    forall id :: id in cache ==> cache[id] != {} && NoDirCreated(cache[id])
  }

  /** The events pending for a library, empty when it has no key. */
  function Pending(cache: map<int, set<Event>>, id: int): set<Event>
  {
    if id in cache then cache[id] else {}
  }

  /** The cache after `_aggregate_items(message)`. */
  function Aggregated(cache: map<int, set<Event>>, m: Message): (r: map<int, set<Event>>)
    // each library's pending set gains this message's event if it is its library and the event is kept, and nothing else
    ensures forall id :: Pending(r, id) == Pending(cache, id) + (if id == m.libraryPk && !IsDirCreated(m.event) then {m.event} else {})
    // only the message's own library can gain a key
    ensures r.Keys <= cache.Keys + {m.libraryPk}
  {
    if IsDirCreated(m.event) then cache
    else cache[m.libraryPk := Pending(cache, m.libraryPk) + {m.event}]
  }

  /** The cache after `_aggregate_items` of each message in turn. */
  function AggregatedAll(cache: map<int, set<Event>>, ms: seq<Message>): map<int, set<Event>>
    decreases |ms|
  {
    if ms == [] then cache else AggregatedAll(Aggregated(cache, ms[0]), ms[1..])
  }

  /** The events of `ms` that the aggregator keeps for library `id`. */
  function Kept(ms: seq<Message>, id: int): set<Event>
  {
    set i | 0 <= i < |ms| && ms[i].libraryPk == id && !IsDirCreated(ms[i].event) :: ms[i].event
  }

  /** Aggregation keeps the cache invariant. */
  lemma AggregatedKeepsCacheOk(cache: map<int, set<Event>>, m: Message)
    requires CacheOk(cache)
    ensures CacheOk(Aggregated(cache, m))
  {
  }

  /**
   * One aggregation: a directory creation changes nothing; any other event is added to its
   * library's set, which is created when missing, and every other library is unchanged.
   */
  lemma AggregatedSpec(cache: map<int, set<Event>>, m: Message)
    ensures IsDirCreated(m.event) ==> Aggregated(cache, m) == cache
    ensures !IsDirCreated(m.event) ==>
      Aggregated(cache, m).Keys == cache.Keys + {m.libraryPk} &&
      Aggregated(cache, m)[m.libraryPk] == Pending(cache, m.libraryPk) + {m.event}
    ensures forall id :: id != m.libraryPk ==> Pending(Aggregated(cache, m), id) == Pending(cache, id)
  {
  }

  /** Delivering the same message twice is the same as delivering it once. */
  lemma AggregatedIdempotent(cache: map<int, set<Event>>, m: Message)
    ensures Aggregated(Aggregated(cache, m), m) == Aggregated(cache, m)
  {
  }

  /** Arrival order does not matter: two messages commute. */
  lemma AggregatedCommutes(cache: map<int, set<Event>>, m1: Message, m2: Message)
    ensures Aggregated(Aggregated(cache, m1), m2) == Aggregated(Aggregated(cache, m2), m1)
  {
    if !IsDirCreated(m1.event) && !IsDirCreated(m2.event) && m1.libraryPk == m2.libraryPk {
      assert Pending(cache, m1.libraryPk) + {m1.event} + {m2.event} == Pending(cache, m1.libraryPk) + {m2.event} + {m1.event};
    }
  }

  lemma KeptCons(ms: seq<Message>, id: int)
    requires ms != []
    ensures Kept(ms, id) == Kept([ms[0]], id) + Kept(ms[1..], id)
  {
    forall e | e in Kept(ms, id) ensures e in Kept([ms[0]], id) + Kept(ms[1..], id) {
      var i :| 0 <= i < |ms| && ms[i].libraryPk == id && !IsDirCreated(ms[i].event) && ms[i].event == e;
      if i > 0 {
        assert ms[1..][i - 1] == ms[i];
      }
    }
    forall e | e in Kept(ms[1..], id) ensures e in Kept(ms, id) {
      var i :| 0 <= i < |ms[1..]| && ms[1..][i].libraryPk == id && !IsDirCreated(ms[1..][i].event) && ms[1..][i].event == e;
      assert ms[i + 1] == ms[1..][i];
    }
    assert Kept([ms[0]], id) <= Kept(ms, id) by {
      forall e | e in Kept([ms[0]], id) ensures e in Kept(ms, id) {
        assert [ms[0]][0] == ms[0];
      }
    }
  }

  /**
   * No event is lost or invented: after a sequence of messages, each library's pending set is
   * what it had before plus exactly the events of its messages other than directory
   * creations, and the cache keeps its invariant.
   */
  lemma {:induction false} AggregatedAllSpec(cache: map<int, set<Event>>, ms: seq<Message>)
    requires CacheOk(cache)
    ensures CacheOk(AggregatedAll(cache, ms))
    ensures forall id :: Pending(AggregatedAll(cache, ms), id) == Pending(cache, id) + Kept(ms, id)
    decreases |ms|
  {
    if ms == [] {
      forall id ensures Kept(ms, id) == {} {
      }
    } else {
      var next := Aggregated(cache, ms[0]);
      AggregatedKeepsCacheOk(cache, ms[0]);
      AggregatedAllSpec(next, ms[1..]);
      forall id ensures Pending(AggregatedAll(cache, ms), id) == Pending(cache, id) + Kept(ms, id) {
        KeptCons(ms, id);
        assert [ms[0]][0] == ms[0];
        if id == ms[0].libraryPk && !IsDirCreated(ms[0].event) {
          assert Kept([ms[0]], id) == {ms[0].event};
        } else {
          assert Kept([ms[0]], id) == {};
        }
      }
    }
  }

  /**
   * When no source is moved to two different destinations, the task of a library is fully
   * determined by its events.
   */
  predicate MovesUnambiguous(events: set<Event>)
  {
    forall a, b :: a in events && b in events && a.kind == Moved && b.kind == Moved && a.isDir == b.isDir && a.src == b.src ==> a.dest == b.dest
  }

  lemma MovedMapDetermined(events: set<Event>, isDir: bool, m1: map<Path, Path>, m2: map<Path, Path>)
    requires MovesUnambiguous(events)
    requires IsMovedMap(events, isDir, m1) && IsMovedMap(events, isDir, m2)
    ensures m1 == m2
  {
    assert m1.Keys == m2.Keys;
    forall k | k in m1 ensures m1[k] == m2[k] {
      var a :| a in events && a.isDir == isDir && a.kind == Moved && a.src == k && a.dest == Some(m1[k]);
      var b :| b in events && b.isDir == isDir && b.kind == Moved && b.src == k && b.dest == Some(m2[k]);
    }
  }

  lemma TaskDetermined(libraryId: int, events: set<Event>, t1: Task, t2: Task)
    requires MovesUnambiguous(events)
    requires IsTaskFor(libraryId, events, t1) && IsTaskFor(libraryId, events, t2)
    ensures t1 == t2
  {
    MovedMapDetermined(events, true, t1.dirsMoved, t2.dirsMoved);
    MovedMapDetermined(events, false, t1.filesMoved, t2.filesMoved);
  }

  /**
   * `sent` is a flush of the libraries `ids` of `cache`, in sending order: its last task is
   * built from the events of one library of `ids`, and the tasks before it are a flush of the
   * other libraries.
   */
  predicate IsFlushOfKeys(cache: map<int, set<Event>>, ids: set<int>, sent: seq<Task>)
    decreases |sent|
  {
    if sent == [] then ids == {}
    else
      var task := sent[|sent| - 1];
      task.libraryId in ids && IsBuiltFrom(cache, task) &&
      IsFlushOfKeys(cache, ids - {task.libraryId}, sent[..|sent| - 1])
  }

  /** A task built from the pending events of its own library. */
  predicate IsBuiltFrom(cache: map<int, set<Event>>, task: Task)
  {
    task.libraryId in cache && IsTaskFor(task.libraryId, cache[task.libraryId], task)
  }

  /** A flush of every cached library. */
  predicate IsFlushOf(cache: map<int, set<Event>>, sent: seq<Task>)
  {
    IsFlushOfKeys(cache, cache.Keys, sent)
  }

  /** Sending the task of one more library extends a partial flush. */
  lemma FlushStep(cache: map<int, set<Event>>, ids: set<int>, sent: seq<Task>, id: int, task: Task)
    requires IsFlushOfKeys(cache, ids, sent)
    requires id in cache && id !in ids && task.libraryId == id && IsTaskFor(id, cache[id], task)
    ensures IsFlushOfKeys(cache, ids + {id}, sent + [task])
  {
    assert (sent + [task])[..|sent|] == sent;
    assert ids + {id} - {id} == ids;
  }

  /** A flush names only libraries of `ids`, all of them cached, with one task for each. */
  lemma {:induction false} FlushSize(cache: map<int, set<Event>>, ids: set<int>, sent: seq<Task>)
    requires IsFlushOfKeys(cache, ids, sent)
    ensures ids <= cache.Keys && |sent| == |ids|
    decreases |sent|
  {
    if sent != [] {
      var task := sent[|sent| - 1];
      FlushSize(cache, ids - {task.libraryId}, sent[..|sent| - 1]);
      assert ids == (ids - {task.libraryId}) + {task.libraryId};
    }
  }

  /** Every task of a flush is for a library of `ids` and is built from that library's events only. */
  lemma {:induction false} FlushBuilt(cache: map<int, set<Event>>, ids: set<int>, sent: seq<Task>)
    requires IsFlushOfKeys(cache, ids, sent)
    ensures forall j :: 0 <= j < |sent| ==> sent[j].libraryId in ids && IsBuiltFrom(cache, sent[j])
    decreases |sent|
  {
    if sent != [] {
      var n := |sent| - 1;
      FlushBuilt(cache, ids - {sent[n].libraryId}, sent[..n]);
      assert forall j :: 0 <= j < n ==> sent[j] == sent[..n][j];
    }
  }

  /** No library has two tasks in one flush. */
  lemma {:induction false} FlushDistinct(cache: map<int, set<Event>>, ids: set<int>, sent: seq<Task>)
    requires IsFlushOfKeys(cache, ids, sent)
    ensures forall i, j :: 0 <= i < j < |sent| ==> sent[i].libraryId != sent[j].libraryId
    decreases |sent|
  {
    if sent != [] {
      var n := |sent| - 1;
      var rest := ids - {sent[n].libraryId};
      FlushDistinct(cache, rest, sent[..n]);
      FlushBuilt(cache, rest, sent[..n]);
      assert forall j :: 0 <= j < n ==> sent[j] == sent[..n][j];
    }
  }

  /** Every library of `ids` has a task in the flush. */
  lemma {:induction false} FlushCovers(cache: map<int, set<Event>>, ids: set<int>, sent: seq<Task>)
    requires IsFlushOfKeys(cache, ids, sent)
    ensures forall id :: id in ids ==> exists j :: 0 <= j < |sent| && sent[j].libraryId == id
    decreases |sent|
  {
    if sent != [] {
      var n := |sent| - 1;
      var rest := ids - {sent[n].libraryId};
      FlushCovers(cache, rest, sent[..n]);
      forall id | id in ids ensures exists j :: 0 <= j < |sent| && sent[j].libraryId == id {
        if id == sent[n].libraryId {
          assert sent[n].libraryId == id;
        } else {
          assert id in rest;
          var j :| 0 <= j < |sent[..n]| && sent[..n][j].libraryId == id;
          assert sent[j].libraryId == id;
        }
      }
    }
  }

  /** Per-library isolation: a library gets a task in the flush exactly when it has pending events, and only one. */
  lemma {:induction false} FlushOneTaskPerLibrary(cache: map<int, set<Event>>, sent: seq<Task>, id: int)
    requires IsFlushOf(cache, sent)
    ensures id in cache <==> exists j :: 0 <= j < |sent| && sent[j].libraryId == id
    ensures forall i, j :: 0 <= i < |sent| && 0 <= j < |sent| && sent[i].libraryId == id && sent[j].libraryId == id ==> i == j
  {
    FlushDistinct(cache, cache.Keys, sent);
    FlushCovers(cache, cache.Keys, sent);
    FlushBuilt(cache, cache.Keys, sent);
  }

  /**
   * Two flushes of the same cache send the same tasks, each once, and differ at most in their
   * order, when no cached library has a path moved to two destinations.
   */
  lemma FlushesAgree(cache: map<int, set<Event>>, sent1: seq<Task>, sent2: seq<Task>)
    requires IsFlushOf(cache, sent1) && IsFlushOf(cache, sent2)
    requires forall id :: id in cache ==> MovesUnambiguous(cache[id])
    ensures |sent1| == |sent2|
    ensures forall t :: t in sent1 <==> t in sent2
  {
    FlushSize(cache, cache.Keys, sent1);
    FlushSize(cache, cache.Keys, sent2);
    FlushesAgreeOneWay(cache, sent1, sent2);
    FlushesAgreeOneWay(cache, sent2, sent1);
  }

  /** Every task of one flush is also a task of any other flush of the same cache. */
  lemma FlushesAgreeOneWay(cache: map<int, set<Event>>, sent1: seq<Task>, sent2: seq<Task>)
    requires IsFlushOf(cache, sent1) && IsFlushOf(cache, sent2)
    requires forall id :: id in cache ==> MovesUnambiguous(cache[id])
    ensures forall t :: t in sent1 ==> t in sent2
  {
    FlushBuilt(cache, cache.Keys, sent1);
    FlushCovers(cache, cache.Keys, sent2);
    FlushBuilt(cache, cache.Keys, sent2);
    forall t | t in sent1 ensures t in sent2 {
      var i :| 0 <= i < |sent1| && sent1[i] == t;
      var id := t.libraryId;
      assert IsBuiltFrom(cache, sent1[i]);
      var j :| 0 <= j < |sent2| && sent2[j].libraryId == id;
      assert IsBuiltFrom(cache, sent2[j]);
      TaskDetermined(id, cache[id], t, sent2[j]);
    }
  }

  /** A non-empty set of library keys has a member: what lets the flush loop pick its next key. */
  lemma NonEmptyHasMember(s: set<int>)
    requires s != {}
    ensures exists x :: x in s
  {
    if forall x :: x !in s {
      assert false;
    }
  }

  class EventBatcher {
    /** `self.cache`: pending events per library. */
    var cache: map<int, set<Event>>
    /** The tasks put on `LIBRARIAN_QUEUE`, oldest first. */
    var librarianQueue: seq<Task>

    predicate Valid()
      reads this
    {
      CacheOk(cache)
    }

    constructor ()
      ensures Valid() && cache == map[] && librarianQueue == []
    {
      cache := map[];
      librarianQueue := [];
    }

    /** `_aggregate_items`: fold one message into the cache. */
    method AggregateItems(message: Message)
      requires Valid()
      modifies this
      ensures Valid()
      ensures cache == Aggregated(old(cache), message)
      ensures librarianQueue == old(librarianQueue)
    {
      var libraryPk, event := message.libraryPk, message.event;
      if event.isDir && event.kind == Created {
        return;
      }
      if libraryPk !in cache {
        cache := cache[libraryPk := {}];
      }
      cache := cache[libraryPk := cache[libraryPk] + {event}];
    }

    /** `_create_task_from_events`: one task from one library's events. */
    method CreateTaskFromEvents(libraryId: int, events: set<Event>) returns (task: Task)
      requires NoDirCreated(events)
      ensures IsTaskFor(libraryId, events, task)
    {
      var params := Task(libraryId, map[], map[], {}, {}, {}, {}, {});
      var remaining := events;
      ghost var done: set<Event> := {};
      while remaining != {}
        invariant remaining <= events && done == events - remaining
        invariant IsTaskFor(libraryId, done, params)
        decreases remaining
      {
        var event :| event in remaining;
        TaskStep(libraryId, done, event, params);
        var field := FieldByEvent(event);
        if event.kind == Moved {
          if field == "dirs_moved" {
            params := params.(dirsMoved := params.dirsMoved[event.src := event.dest.value]);
          } else {
            params := params.(filesMoved := params.filesMoved[event.src := event.dest.value]);
          }
        } else if field == "files_modified" {
          params := params.(filesModified := params.filesModified + {event.src});
        } else if field == "files_created" {
          params := params.(filesCreated := params.filesCreated + {event.src});
        } else if field == "dirs_deleted" {
          params := params.(dirsDeleted := params.dirsDeleted + {event.src});
        } else if field == "dirs_modified" {
          params := params.(dirsModified := params.dirsModified + {event.src});
        } else {
          params := params.(filesDeleted := params.filesDeleted + {event.src});
        }
        remaining := remaining - {event};
        done := done + {event};
      }
      task := params;
    }

    /** `_send_all_items`: one task per cached library onto the librarian queue, then those keys are cleared. */
    method SendAllItems()
      requires Valid()
      modifies this
      ensures Valid() && cache == map[]
      ensures |old(librarianQueue)| <= |librarianQueue| && librarianQueue[..|old(librarianQueue)|] == old(librarianQueue)
      ensures IsFlushOf(old(cache), librarianQueue[|old(librarianQueue)|..])
    {
      ghost var start, flushed := librarianQueue, cache;
      ghost var sent: seq<Task> := [];
      var libraryIds: set<int> := {};
      var items := cache.Keys;
      while items != {}
        invariant cache == flushed && CacheOk(flushed)
        invariant items <= flushed.Keys && libraryIds == flushed.Keys - items
        invariant librarianQueue == start + sent
        invariant IsFlushOfKeys(flushed, libraryIds, sent)
        decreases items
      {
        NonEmptyHasMember(items);
        var libraryId :| libraryId in items;
        var task := CreateTaskFromEvents(libraryId, cache[libraryId]);
        FlushStep(flushed, libraryIds, sent, libraryId, task);
        librarianQueue := librarianQueue + [task];
        sent := sent + [task];
        libraryIds := libraryIds + {libraryId};
        items := items - {libraryId};
      }
      assert librarianQueue[|start|..] == sent;
      assert libraryIds == flushed.Keys;
      assert IsFlushOf(flushed, librarianQueue[|start|..]);
      CleanupCache(libraryIds);
    }

    /** `_cleanup_cache(keys)`: remove exactly the given library keys. */
    method CleanupCache(keys: set<int>)
      requires Valid()
      modifies this
      ensures Valid()
      ensures cache.Keys == old(cache).Keys - keys
      ensures forall id :: id in cache ==> cache[id] == old(cache)[id]
      ensures librarianQueue == old(librarianQueue)
    {
      cache := cache - keys;
    }
  }

  /** The events of the end-to-end example: the creation of "x.cbr" and the move of directory "y" to "z". */
  const ExampleCreated: Event := RawEvent(Created, false, "x.cbr", None)
  const ExampleMoved: Event := RawEvent(Moved, true, "y", Some("z"))

  /** Library 42 receives the creation twice and the move once: both pass the filter. */
  lemma ExampleDispatch()
    ensures Dispatch(42, ExampleCreated) == Some(Message(42, ExampleCreated))
    ensures Dispatch(42, ExampleMoved) == Some(Message(42, ExampleMoved))
  {
    ComicNameExamples();
  }

  /** The duplicate creation collapses in the cache. */
  lemma ExampleAggregation()
    ensures AggregatedAll(map[], [Message(42, ExampleCreated), Message(42, ExampleCreated), Message(42, ExampleMoved)])
      == map[42 := {ExampleCreated, ExampleMoved}]
  {
    var ms := [Message(42, ExampleCreated), Message(42, ExampleCreated), Message(42, ExampleMoved)];
    assert !IsDirCreated(ExampleCreated) && !IsDirCreated(ExampleMoved);
    var empty: map<int, set<Event>> := map[];
    var none: set<Event> := {};
    assert Pending(empty, 42) == none;
    assert none + {ExampleCreated} == {ExampleCreated};
    var c1 := Aggregated(empty, ms[0]);
    assert c1 == map[42 := {ExampleCreated}];
    var c2 := Aggregated(c1, ms[1]);
    assert c2 == c1;
    var c3 := Aggregated(c2, ms[2]);
    assert Pending(c2, 42) + {ExampleMoved} == {ExampleCreated, ExampleMoved};
    assert c3 == map[42 := {ExampleCreated, ExampleMoved}];
    assert AggregatedAll(empty, ms) == AggregatedAll(c1, ms[1..]);
    assert AggregatedAll(c1, ms[1..]) == AggregatedAll(c2, ms[2..]);
    assert AggregatedAll(c2, ms[2..]) == AggregatedAll(c3, ms[3..]);
  }

  /** The only task built from the example's pending set: "x.cbr" created, "y" moved to "z", all else empty. */
  lemma ExampleTask(t: Task)
    ensures IsTaskFor(42, {ExampleCreated, ExampleMoved}, t) <==> t == Task(42, map["y" := "z"], map[], {}, {"x.cbr"}, {}, {}, {})
  {
    var events: set<Event> := {ExampleCreated, ExampleMoved};
    assert Sources(events, true, Moved) == {"y"};
    assert Sources(events, false, Created) == {"x.cbr"};
    assert Sources(events, false, Moved) == {};
    assert Sources(events, false, Modified) == {};
    assert Sources(events, false, Deleted) == {};
    assert Sources(events, true, Modified) == {};
    assert Sources(events, true, Deleted) == {};
    var expected := Task(42, map["y" := "z"], map[], {}, {"x.cbr"}, {}, {}, {});
    assert IsMovedMap(events, true, expected.dirsMoved) by {
      assert ExampleMoved in events;
    }
    assert IsTaskFor(42, events, expected);
    if IsTaskFor(42, events, t) {
      TaskDetermined(42, events, t, expected);
    }
  }

  /**
   * The cache collapses events by identity, not by path: a file created and then modified in
   * one flush window is reported both as created and as modified.
   */
  lemma SamePathInTwoCollections(t: Task)
    requires IsTaskFor(1, {RawEvent(Created, false, "x.cbz", None), RawEvent(Modified, false, "x.cbz", None)}, t)
    ensures "x.cbz" in t.filesCreated && "x.cbz" in t.filesModified
  {
    var created: Event := RawEvent(Created, false, "x.cbz", None);
    var modified: Event := RawEvent(Modified, false, "x.cbz", None);
    assert created.src in Sources({created, modified}, false, Created);
    assert modified.src in Sources({created, modified}, false, Modified);
  }
}
