/**
 * Filesystem events as the watchdog library delivers them, and the per-library filter
 * `CodexLibraryEventHandler.dispatch` that decides which of them reach the batcher.
 */
module WatchEvents {
  import opened Wrappers
  import opened ComicName

  type Path = string

  datatype Kind = Created | Modified | Deleted | Moved

  /** watchdog's `event_type` strings. */
  function KindName(k: Kind): string
  {
    match k
    case Created => "created"
    case Modified => "modified"
    case Deleted => "deleted"
    case Moved => "moved"
  }

  /**
   * A raw event. Two events are equal exactly when kind, directory flag, source path and
   * (for a move) destination path agree, which is the identity watchdog's events hash by.
   */
  datatype RawEvent = RawEvent(kind: Kind, isDir: bool, src: Path, dest: Option<Path>)

  /** watchdog gives a destination path to move events and only to them. */
  type Event = e: RawEvent | (e.kind == Moved) == e.dest.Some? witness RawEvent(Created, false, "", None)

  /** What a handler pushes onto the batcher's inbound queue: `(library_pk, event)`. */
  datatype Message = Message(libraryPk: int, event: Event)

  predicate IsDirCreated(e: Event)
  {
    e.isDir && e.kind == Created
  }

  /** `FileCreatedEvent(path)`: a representation helper. */
  function FileCreated(path: Path): Event
  {
    RawEvent(Created, false, path, None)
  }

  /**
   * `CodexLibraryEventHandler.dispatch` for the handler of library `libraryPk`: the message it
   * puts on the batcher's queue, or None when it drops the event.
   */
  function Dispatch(libraryPk: int, event: Event): (r: Option<Message>)
    // every forwarded message is tagged with the handler's library
    ensures r.Some? ==> r.value.libraryPk == libraryPk
    // directory creation never gets through
    ensures r.Some? ==> !IsDirCreated(r.value.event)
    // every forwarded file event has a comic name as its source path
    ensures r.Some? && !r.value.event.isDir ==> IsComicName(r.value.event.src)
    // a forwarded event is the input itself, or the created event at a move's destination
    ensures r.Some? ==> r.value.event == event || (event.kind == Moved && r.value.event == FileCreated(event.dest.value))
  {
    if event.isDir then
      if event.kind == Created then None
      else Some(Message(libraryPk, event))
    else
      var e :=
        if event.kind == Moved && !IsComicName(event.src) && IsComicName(event.dest.value)
        then FileCreated(event.dest.value)
        else event;
      if !IsComicName(e.src) then None
      else Some(Message(libraryPk, e))
  }

  /** Directory events other than creation pass unchanged, with no test of their names. */
  lemma DispatchDirectoryEvents(libraryPk: int, event: Event)
    requires event.isDir
    ensures Dispatch(libraryPk, event) == if event.kind == Created then None else Some(Message(libraryPk, event))
  {
  }

  /** A file renamed from a non-comic name to a comic name becomes a new comic at the destination. */
  lemma DispatchReclassifiesMoveIntoComic(libraryPk: int, event: Event)
    requires !event.isDir && event.kind == Moved
    requires !IsComicName(event.src) && IsComicName(event.dest.value)
    ensures Dispatch(libraryPk, event) == Some(Message(libraryPk, FileCreated(event.dest.value)))
  {
  }

  /** A comic renamed to a non-comic name is not turned into a deletion: it stays a move. */
  lemma DispatchKeepsMoveOutOfComic(libraryPk: int, event: Event)
    requires !event.isDir && event.kind == Moved && IsComicName(event.src)
    ensures Dispatch(libraryPk, event) == Some(Message(libraryPk, event))
  {
  }

  /**
   * A file event is dropped exactly when its source is not a comic name and it is not a move
   * into a comic name.
   */
  lemma DispatchDropsNonComicFiles(libraryPk: int, event: Event)
    requires !event.isDir
    ensures Dispatch(libraryPk, event).None? <==>
      !IsComicName(event.src) && !(event.kind == Moved && IsComicName(event.dest.value))
  {
  }

  /** The reclassification example: "a.txt" moved to "b.cbz" is forwarded as the creation of "b.cbz". */
  lemma DispatchExamples()
    ensures Dispatch(7, RawEvent(Moved, false, "a.txt", Some("b.cbz"))) == Some(Message(7, FileCreated("b.cbz")))
    ensures Dispatch(7, RawEvent(Modified, false, "notes.txt", None)) == None
    ensures Dispatch(7, RawEvent(Created, true, "dir.cbz", None)) == None
    ensures Dispatch(7, RawEvent(Moved, false, "c.cbr", Some("c.txt"))) == Some(Message(7, RawEvent(Moved, false, "c.cbr", Some("c.txt"))))
  {
    ComicNameExamples();
    IsComicNameIffSuffix("c.cbr");
    IsComicNameIffSuffix("c.txt");
  }
}
