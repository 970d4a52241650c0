/** The Board entity (the `boards` table): its column bounds, the
    timestamp callbacks run by the persistence layer and the edit
    method.  Timestamps are clock readings passed in as integers. */
module BoardEntity {
  import opened Wrappers

  /** `title` is VARCHAR(500). */
  const TitleMaxLength := 500
  /** `author` is VARCHAR(50). */
  const AuthorMaxLength := 50

  /** A stored row: the columns the table declares NOT NULL hold a value,
      and `updatedAt` is always filled because the insert callback sets it. */
  datatype Post = Post(id: int, title: string, content: string, author: string,
                       createdAt: int, updatedAt: int)

  /** The fields of a Board object in memory; `None` is Java's null. */
  datatype EntityState = EntityState(id: Option<int>, title: Option<string>,
                                     content: Option<string>, author: Option<string>,
                                     createdAt: Option<int>, updatedAt: Option<int>)

  /** The column constraints of the table: title, content, author and
      createdAt are NOT NULL, title has at most 500 and author at most 50
      characters. */
  predicate ColumnsValid(s: EntityState)
  {
    && s.title.Some? && |s.title.value| <= TitleMaxLength
    && s.content.Some?
    && s.author.Some? && |s.author.value| <= AuthorMaxLength
    && s.createdAt.Some?
  }

  /** The same bounds, read on a stored row. */
  predicate RowWithinColumns(p: Post)
  {
    |p.title| <= TitleMaxLength && |p.author| <= AuthorMaxLength
  }

  /** An entity the store can write: it satisfies the column constraints
      and has been through the insert callback. */
  predicate Persistable(s: EntityState)
  {
    ColumnsValid(s) && s.updatedAt.Some?
  }

  /** The entity the persistence layer materialises for a stored row. */
  function StateOf(p: Post): EntityState
  {
    EntityState(Some(p.id), Some(p.title), Some(p.content), Some(p.author),
                Some(p.createdAt), Some(p.updatedAt))
  }

  /** The row written for an entity under the given id. */
  function RowOf(s: EntityState, id: int): Post
    requires Persistable(s)
  {
    Post(id, s.title.value, s.content.value, s.author.value, s.createdAt.value, s.updatedAt.value)
  }

  /** Loading a row and writing it back yields the row again, and a row
      that respects the column bounds loads as a writable entity. */
  lemma RowRoundTrip(p: Post)
    requires RowWithinColumns(p)
    ensures Persistable(StateOf(p))
    ensures RowOf(StateOf(p), p.id) == p
  {
  }

  /** `onCreate` as written: two separate clock readings. */
  function CreatedAsWritten(s: EntityState, first: int, second: int): EntityState
  {
    s.(createdAt := Some(first), updatedAt := Some(second))
  }

  /** `onCreate` as intended: both timestamps from one reading. */
  function Created(s: EntityState, now: int): EntityState
  {
    s.(createdAt := Some(now), updatedAt := Some(now))
  }

  /** `onUpdate`: only `updatedAt` moves. */
  function Touched(s: EntityState, now: int): EntityState
  {
    s.(updatedAt := Some(now))
  }

  /** `update(title, content)`. */
  function Edited(s: EntityState, title: Option<string>, content: Option<string>): EntityState
  {
    s.(title := title, content := content)
  }

  /** With a clock that does not run backwards, the as-written callback
      still gives `updatedAt >= createdAt`. */
  lemma CreatedAsWrittenOrdered(s: EntityState, first: int, second: int)
    requires first <= second
    ensures var c := CreatedAsWritten(s, first, second);
      c.createdAt == Some(first) && c.updatedAt == Some(second) && c.createdAt.value <= c.updatedAt.value
    ensures CreatedAsWritten(s, first, second).id == s.id
    ensures CreatedAsWritten(s, first, second).author == s.author
  {
  }

  /** The two readings of the as-written callback may differ, so a new post
      can start with `updatedAt != createdAt`. */
  lemma CreatedAsWrittenCanDiffer()
    ensures var c := CreatedAsWritten(EntityState(None, None, None, None, None, None), 0, 1);
      c.createdAt != c.updatedAt
  {
  }

  /** The corrected callback makes a new post start with
      `updatedAt == createdAt`, the value of that one reading. */
  lemma CreatedStartsEqual(s: EntityState, now: int)
    ensures Created(s, now).createdAt == Some(now)
    ensures Created(s, now).updatedAt == Created(s, now).createdAt
    ensures Created(s, now).(createdAt := s.createdAt, updatedAt := s.updatedAt) == s
  {
  }

  /** `update` sets title and content and leaves id, author and both
      timestamps alone; applying it twice is applying it once. */
  lemma EditedKeepsIdentity(s: EntityState, title: Option<string>, content: Option<string>)
    ensures Edited(s, title, content).title == title
    ensures Edited(s, title, content).content == content
    ensures var e := Edited(s, title, content);
      e.id == s.id && e.author == s.author && e.createdAt == s.createdAt && e.updatedAt == s.updatedAt
    ensures Edited(Edited(s, title, content), title, content) == Edited(s, title, content)
  {
  }

  /** `onUpdate` moves `updatedAt` and keeps `createdAt` and everything else. */
  lemma TouchedKeepsCreation(s: EntityState, now: int)
    ensures Touched(s, now).updatedAt == Some(now)
    ensures Touched(s, now).(updatedAt := s.updatedAt) == s
  {
  }

  /** One edit of a stored post: new title and content, and the clock
      reading taken by `onUpdate` when it is saved. */
  datatype Edit = Edit(title: Option<string>, content: Option<string>, at: int)

  /** The entity after `update` followed by `onUpdate` for each edit in turn. */
  function AfterEdits(s: EntityState, edits: seq<Edit>): EntityState
    decreases |edits|
  {
    if edits == [] then s
    else AfterEdits(Touched(Edited(s, edits[0].title, edits[0].content), edits[0].at), edits[1..])
  }

  /** Clock readings that start at `from` and never run backwards. */
  ghost predicate ClockFrom(from: int, edits: seq<Edit>)
  {
    (forall i :: 0 <= i < |edits| ==> from <= edits[i].at)
    && (forall i, j :: 0 <= i < j < |edits| ==> edits[i].at <= edits[j].at)
  }

  /** Edits keep id, author and createdAt, and leave `updatedAt` at the last
      reading, which is no earlier than the one before the edits. */
  lemma {:induction false} EditsKeepOrder(s: EntityState, since: int, edits: seq<Edit>)
    requires s.updatedAt == Some(since)
    requires ClockFrom(since, edits)
    ensures var e := AfterEdits(s, edits);
      && e.id == s.id && e.author == s.author && e.createdAt == s.createdAt
      && e.updatedAt.Some? && since <= e.updatedAt.value
      && (edits != [] ==> e.updatedAt == Some(edits[|edits| - 1].at))
    decreases |edits|
  {
    if edits != [] {
      var t := Touched(Edited(s, edits[0].title, edits[0].content), edits[0].at);
      assert ClockFrom(edits[0].at, edits[1..]) by {
        forall i | 0 <= i < |edits[1..]| ensures edits[0].at <= edits[1..][i].at {
          assert edits[1..][i] == edits[i + 1];
        }
      }
      EditsKeepOrder(t, edits[0].at, edits[1..]);
    }
  }

  /** A post created at `now` and then edited any number of times with a
      clock that does not run backwards keeps its author and `createdAt`
      and has `updatedAt >= createdAt`; once edited at a strictly later
      reading, `updatedAt > createdAt`. */
  lemma {:induction false} LifecycleKeepsTimestampOrder(s: EntityState, now: int, edits: seq<Edit>)
    requires ClockFrom(now, edits)
    ensures var e := AfterEdits(Created(s, now), edits);
      && e.author == s.author && e.createdAt == Some(now)
      && e.updatedAt.Some? && e.createdAt.value <= e.updatedAt.value
    ensures edits != [] && now < edits[|edits| - 1].at ==>
      var e := AfterEdits(Created(s, now), edits); e.createdAt.value < e.updatedAt.value
  {
    EditsKeepOrder(Created(s, now), now, edits);
  }

  /** The JPA entity.  Fields follow the Java class; `None` is null. */
  class Board {
    var id: Option<int>
    var title: Option<string>
    var content: Option<string>
    var author: Option<string>
    var createdAt: Option<int>
    var updatedAt: Option<int>

    function State(): EntityState
      reads this
    {
      EntityState(id, title, content, author, createdAt, updatedAt)
    }

    /** `Board.builder().title(t).content(c).author(a).build()`: id and
        timestamps stay null until the store fills them. */
    constructor Build(title: Option<string>, content: Option<string>, author: Option<string>)
      ensures State() == EntityState(None, title, content, author, None, None)
    {
      this.id := None;
      this.title := title;
      this.content := content;
      this.author := author;
      this.createdAt := None;
      this.updatedAt := None;
    }

    /** The entity the store hands out for a row. */
    constructor Load(row: Post)
      ensures State() == StateOf(row)
    {
      this.id := Some(row.id);
      this.title := Some(row.title);
      this.content := Some(row.content);
      this.author := Some(row.author);
      this.createdAt := Some(row.createdAt);
      this.updatedAt := Some(row.updatedAt);
    }

    /** `onCreate` with its two clock readings, as written. */
    method OnCreateAsWritten(first: int, second: int)
      modifies this
      ensures State() == CreatedAsWritten(old(State()), first, second)
    {
      createdAt := Some(first);
      updatedAt := Some(second);
    }

    /** `onCreate` as intended: one clock reading for both timestamps. */
    method OnCreate(now: int)
      modifies this
      ensures State() == Created(old(State()), now)
    {
      createdAt := Some(now);
      updatedAt := Some(now);
    }

    /** `onUpdate`, run before an existing row is written. */
    method OnUpdate(now: int)
      modifies this
      ensures State() == Touched(old(State()), now)
    {
      updatedAt := Some(now);
    }

    /** `update(title, content)`: author and createdAt cannot be edited. */
    method Update(title: Option<string>, content: Option<string>)
      modifies this
      ensures State() == Edited(old(State()), title, content)
    {
      this.title := title;
      this.content := content;
    }
  }
}
