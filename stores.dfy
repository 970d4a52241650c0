/** The two stores the core talks to, as maps from post id to record: the
    Post Store (the `boards` table behind the repository) and the Search
    Index (the `boards` index behind the search repository). */
module Stores {
  import opened Wrappers
  import opened BoardEntity
  import opened BoardDto
  import opened Paging

  /** The exceptions of the direct-access path. */
  datatype Failure = NotFound | ConstraintViolation

  /** A Search Index together with the success and failure counters a
      batch of index writes keeps. */
  datatype Tally = Tally(docs: map<int, BoardDocument>, succeeded: nat, failed: nat)

  /** Every row sits under its own id and respects the column bounds. */
  ghost predicate WellFormed(rows: map<int, Post>)
  {
    forall id :: id in rows ==> rows[id].id == id && RowWithinColumns(rows[id])
  }

  /** `all` lists the table: every row exactly once. */
  ghost predicate IsListing(all: seq<Post>, rows: map<int, Post>)
  {
    && |all| == |rows|
    && (forall k :: 0 <= k < |all| ==> all[k].id in rows && rows[all[k].id] == all[k])
    && (forall j, k :: 0 <= j < k < |all| ==> all[j].id != all[k].id)
    && (forall id :: id in rows ==> exists k :: 0 <= k < |all| && all[k].id == id)
  }

  /** The ids a sequence of rows carries. */
  ghost function IdsOf(all: seq<Post>): set<int>
  {
    set k | 0 <= k < |all| :: all[k].id
  }

  lemma NonEmptyHasMember(s: set<int>)
    requires s != {}
    ensures exists x :: x in s
  {
    assert (forall x :: x !in s) ==> s == {};
  }

  lemma IdsOfAppend(all: seq<Post>, p: Post)
    ensures IdsOf(all + [p]) == IdsOf(all) + {p.id}
  {
    var longer := all + [p];
    assert longer[|all|].id == p.id;
    forall id | id in IdsOf(longer) ensures id in IdsOf(all) + {p.id} {
      var k :| 0 <= k < |longer| && longer[k].id == id;
      if k < |all| { assert longer[k] == all[k]; }
    }
    forall id | id in IdsOf(all) ensures id in IdsOf(longer) {
      var k :| 0 <= k < |all| && all[k].id == id;
      assert longer[k] == all[k];
    }
  }


  /** A listing carries exactly the ids of the table. */
  lemma ListingIds(all: seq<Post>, rows: map<int, Post>)
    requires IsListing(all, rows)
    ensures IdsOf(all) == rows.Keys
  {
    forall id | id in rows ensures id in IdsOf(all) {
      var k :| 0 <= k < |all| && all[k].id == id;
    }
  }

  /** The Post Store. `nextId` is the auto-increment counter. */
  class BoardRepository {
    var rows: map<int, Post>
    var nextId: int

    ghost predicate Valid()
      reads this
    {
      nextId >= 1 && WellFormed(rows) && forall id :: id in rows ==> 1 <= id < nextId
    }

    constructor Empty()
      ensures Valid() && rows == map[] && nextId == 1
    {
      rows := map[];
      nextId := 1;
    }

    /** `findById`: a fresh entity loaded from the row, or none. */
    method FindById(id: int) returns (found: Option<Board>)
      ensures found.Some? <==> id in rows
      ensures found.Some? ==> fresh(found.value) && found.value.State() == StateOf(rows[id])
    {
      if id in rows {
        var b := new Board.Load(rows[id]);
        found := Some(b);
      } else {
        found := None;
      }
    }

    /** `existsById`. */
    method ExistsById(id: int) returns (present: bool)
      ensures present <==> id in rows
    {
      present := id in rows;
    }

    /** `save`: an entity without an id is inserted under a fresh id after
        the insert callback; an entity with an id overwrites its row after
        the update callback, unless the dirty check finds it equal to the
        stored row, in which case nothing is written and the callback does
        not run.  A row that breaks a column constraint is refused and
        nothing is written. */
    method Save(b: Board, now: int) returns (r: Result<Post, Failure>)
      requires Valid()
      requires b.id.Some? ==> b.id.value in rows
      modifies this, b
      ensures Valid()
      ensures old(b.id).None? ==>
        var s := Created(old(b.State()), now);
        if ColumnsValid(s) then
          && r == Ok(RowOf(s, old(nextId)))
          && rows == old(rows)[old(nextId) := r.value]
          && nextId == old(nextId) + 1
          && b.State() == s.(id := Some(old(nextId)))
        else
          r == Err(ConstraintViolation) && rows == old(rows) && nextId == old(nextId) && b.State() == s
      ensures old(b.id).Some? ==>
        var stored := old(rows)[old(b.id).value];
        && nextId == old(nextId)
        && if old(b.State()) == StateOf(stored) then
             b.State() == old(b.State()) && r == Ok(stored) && rows == old(rows)
           else
             var s := Touched(old(b.State()), now);
             && b.State() == s
             && if ColumnsValid(s) then
                  r == Ok(RowOf(s, old(b.id).value)) && rows == old(rows)[old(b.id).value := r.value]
                else
                  r == Err(ConstraintViolation) && rows == old(rows)
    {
      if b.id.None? {
        b.OnCreate(now);
        if ColumnsValid(b.State()) {
          var id := nextId;
          var row := RowOf(b.State(), id);
          b.id := Some(id);
          rows := rows[id := row];
          nextId := nextId + 1;
          r := Ok(row);
        } else {
          r := Err(ConstraintViolation);
        }
      } else if b.State() == StateOf(rows[b.id.value]) {
        r := Ok(rows[b.id.value]);
      } else {
        b.OnUpdate(now);
        if ColumnsValid(b.State()) {
          var row := RowOf(b.State(), b.id.value);
          rows := rows[b.id.value := row];
          r := Ok(row);
        } else {
          r := Err(ConstraintViolation);
        }
      }
    }

    /** `deleteById`: removing an absent id changes nothing. */
    method DeleteById(id: int)
      modifies this
      ensures rows == old(rows) - {id} && nextId == old(nextId)
    {
      rows := rows - {id};
    }

    /** `findAll()`: every row once, in an order the store chooses. */
    method FindAll() returns (all: seq<Post>)
      requires Valid()
      ensures IsListing(all, rows)
    {
      all := [];
      var left := rows.Keys;
      while left != {}
        invariant left <= rows.Keys
        invariant |all| + |left| == |rows|
        invariant forall k :: 0 <= k < |all| ==> all[k].id in rows && rows[all[k].id] == all[k] && all[k].id !in left
        invariant forall j, k :: 0 <= j < k < |all| ==> all[j].id != all[k].id
        invariant IdsOf(all) == rows.Keys - left
        decreases left
      {
        NonEmptyHasMember(left);
        var id :| id in left;
        IdsOfAppend(all, rows[id]);
        all := all + [rows[id]];
        left := left - {id};
      }
      forall id | id in rows ensures exists k :: 0 <= k < |all| && all[k].id == id {
        assert id in IdsOf(all);
      }
    }

    /** `findAll(pageable)`: one page of the listing, with its totals. */
    method FindAllPage(page: nat, size: nat) returns (p: Page<Post>, ghost order: seq<Post>)
      requires Valid()
      requires size > 0
      ensures IsListing(order, rows)
      ensures p == PageOf(order, page, size)
    {
      var all := FindAll();
      order := all;
      p := PageOf(all, page, size);
    }
  }

  /** The Search Index. */
  class BoardSearchRepository {
    var docs: map<int, BoardDocument>

    ghost predicate Valid()
      reads this
    {
      forall id :: id in docs ==> docs[id].id == id
    }

    constructor Empty()
      ensures Valid() && docs == map[]
    {
      docs := map[];
    }

    /** `save(document)`: an upsert under the document's id.  When the
        call throws (`unavailable`) the index is unchanged. */
    method Save(d: BoardDocument, unavailable: bool) returns (ok: bool)
      modifies this
      ensures ok == !unavailable
      ensures docs == if ok then old(docs)[d.id := d] else old(docs)
    {
      ok := !unavailable;
      if ok {
        docs := docs[d.id := d];
      }
    }

    /** `deleteById`: removing an absent document is not an error. */
    method DeleteById(id: int, unavailable: bool) returns (ok: bool)
      modifies this
      ensures ok == !unavailable
      ensures docs == if ok then old(docs) - {id} else old(docs)
    {
      ok := !unavailable;
      if ok {
        docs := docs - {id};
      }
    }

    /** Dropping the index and creating it again leaves it empty. */
    method Recreate()
      modifies this
      ensures Valid() && docs == map[]
    {
      docs := map[];
    }
  }
}
