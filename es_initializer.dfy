/** The startup rebuild of the Search Index.  When the
    `board.elasticsearch.sync-on-startup` setting is on, the index is
    dropped, created again and filled with one document per stored post.

    Which document saves throw is not visible to the model: `saveFails(id)`
    says that saving the document of post `id` throws. */
module EsInitializer {
  import opened Wrappers
  import opened BoardEntity
  import opened BoardDto
  import opened Stores

  /** The documents saved for the posts `ids` of `rows`. */
  ghost function Synced(rows: map<int, Post>, ids: set<int>, saveFails: int -> bool): map<int, BoardDocument>
  {
    map id | id in ids && id in rows && !saveFails(id) :: DocumentOf(rows[id])
  }

  /** The posts of `ids` whose save went through. */
  ghost function Passing(rows: map<int, Post>, ids: set<int>, saveFails: int -> bool): set<int>
  {
    set id | id in ids && id in rows && !saveFails(id)
  }

  /** The posts of `ids` whose save threw. */
  ghost function Failing(rows: map<int, Post>, ids: set<int>, saveFails: int -> bool): set<int>
  {
    set id | id in ids && id in rows && saveFails(id)
  }

  /** Handling one more post adds its document, or one failure. */
  lemma SyncedGrows(rows: map<int, Post>, ids: set<int>, id: int, saveFails: int -> bool)
    requires id in rows && id !in ids
    ensures Synced(rows, ids + {id}, saveFails)
            == if saveFails(id) then Synced(rows, ids, saveFails)
               else Synced(rows, ids, saveFails)[id := DocumentOf(rows[id])]
    ensures id !in Passing(rows, ids, saveFails) && id !in Failing(rows, ids, saveFails)
    ensures Passing(rows, ids + {id}, saveFails)
            == Passing(rows, ids, saveFails) + (if saveFails(id) then {} else {id})
    ensures Failing(rows, ids + {id}, saveFails)
            == Failing(rows, ids, saveFails) + (if saveFails(id) then {id} else {})
  {
  }

  /** One more post, on the set view: the index gains the post's document
      unless its save throws, and one counter grows. */
  lemma SaveStep(base: map<int, BoardDocument>, rows: map<int, Post>, done: set<int>,
                 board: Post, saveFails: int -> bool)
    requires board.id in rows && rows[board.id] == board && board.id !in done
    ensures !saveFails(board.id) ==>
      (base + Synced(rows, done, saveFails))[board.id := DocumentOf(board)]
      == base + Synced(rows, done + {board.id}, saveFails)
    ensures saveFails(board.id) ==>
      base + Synced(rows, done, saveFails) == base + Synced(rows, done + {board.id}, saveFails)
    ensures |Passing(rows, done + {board.id}, saveFails)|
            == |Passing(rows, done, saveFails)| + (if saveFails(board.id) then 0 else 1)
    ensures |Failing(rows, done + {board.id}, saveFails)|
            == |Failing(rows, done, saveFails)| + (if saveFails(board.id) then 1 else 0)
  {
    SyncedGrows(rows, done, board.id, saveFails);
  }

  /** An empty store gives no document and no count. */
  lemma EmptyStoreSyncsNothing(rows: map<int, Post>, saveFails: int -> bool)
    requires |rows| == 0
    ensures Synced(rows, rows.Keys, saveFails) == map[]
    ensures |Passing(rows, rows.Keys, saveFails)| == 0 && |Failing(rows, rows.Keys, saveFails)| == 0
  {
    assert rows.Keys == {};
  }

  /** When no save throws, the rebuilt index mirrors the store: one
      document per post, under the post's id, carrying the post's values. */
  lemma RebuildMirrorsStore(rows: map<int, Post>, saveFails: int -> bool)
    requires forall id :: !saveFails(id)
    ensures Synced(rows, rows.Keys, saveFails).Keys == rows.Keys
    ensures forall id :: id in rows ==> Mirrors(Synced(rows, rows.Keys, saveFails)[id], rows[id])
    ensures Failing(rows, rows.Keys, saveFails) == {}
  {
    forall id | id in rows
      ensures id in Synced(rows, rows.Keys, saveFails)
      ensures Mirrors(Synced(rows, rows.Keys, saveFails)[id], rows[id])
    {
      assert !saveFails(id);
      DocumentOfMirrors(rows[id]);
    }
  }

  /** Every post is counted once: the passing and the failing posts split
      the store. */
  lemma PassingAndFailingSplit(rows: map<int, Post>, saveFails: int -> bool)
    ensures Passing(rows, rows.Keys, saveFails) * Failing(rows, rows.Keys, saveFails) == {}
    ensures Passing(rows, rows.Keys, saveFails) + Failing(rows, rows.Keys, saveFails) == rows.Keys
    ensures |Passing(rows, rows.Keys, saveFails)| + |Failing(rows, rows.Keys, saveFails)| == |rows|
  {
    var p := Passing(rows, rows.Keys, saveFails);
    var f := Failing(rows, rows.Keys, saveFails);
    assert p + f == rows.Keys;
    assert |p + f| == |p| + |f| - |p * f|;
  }

  /** The loop of `syncAllBoards` on values: one save per listed post, in
      listing order, a throwing save counted and skipped. */
  function SaveRun(base: map<int, BoardDocument>, boards: seq<Post>, saveFails: int -> bool): Tally
    decreases |boards|
  {
    if boards == [] then Tally(base, 0, 0)
    else
      var t := SaveRun(base, boards[..|boards| - 1], saveFails);
      var b := boards[|boards| - 1];
      if saveFails(b.id) then Tally(t.docs, t.succeeded, t.failed + 1)
      else Tally(t.docs[b.id := DocumentOf(b)], t.succeeded + 1, t.failed)
  }

  /** `boards` lists rows of `rows`, each at most once. */
  ghost predicate ListedFrom(boards: seq<Post>, rows: map<int, Post>)
  {
    && (forall k :: 0 <= k < |boards| ==> boards[k].id in rows && rows[boards[k].id] == boards[k])
    && (forall j, k :: 0 <= j < k < |boards| ==> boards[j].id != boards[k].id)
  }

  /** Saving the listed posts one by one gives the set view: the documents
      of the posts whose save went through, and one count per post.  The
      order of the listing does not matter. */
  lemma {:induction false} SaveRunMatchesSets(base: map<int, BoardDocument>, rows: map<int, Post>,
                                              boards: seq<Post>, saveFails: int -> bool)
    requires ListedFrom(boards, rows)
    ensures SaveRun(base, boards, saveFails)
            == Tally(base + Synced(rows, IdsOf(boards), saveFails),
                     |Passing(rows, IdsOf(boards), saveFails)|,
                     |Failing(rows, IdsOf(boards), saveFails)|)
    decreases |boards|
  {
    if boards == [] {
      assert IdsOf(boards) == {};
      assert base + map[] == base;
    } else {
      var init := boards[..|boards| - 1];
      var b := boards[|boards| - 1];
      assert init + [b] == boards;
      assert ListedFrom(init, rows) by {
        forall k | 0 <= k < |init| ensures init[k] == boards[k] { }
      }
      forall k | 0 <= k < |init| ensures init[k].id != b.id {
        assert init[k] == boards[k];
      }
      SaveRunMatchesSets(base, rows, init, saveFails);
      SaveRunAppend(base, rows, init, b, saveFails);
    }
  }

  /** The inductive step of `SaveRunMatchesSets`: one more listed post. */
  lemma SaveRunAppend(base: map<int, BoardDocument>, rows: map<int, Post>,
                      init: seq<Post>, b: Post, saveFails: int -> bool)
    requires b.id in rows && rows[b.id] == b
    requires forall k :: 0 <= k < |init| ==> init[k].id != b.id
    requires SaveRun(base, init, saveFails)
             == Tally(base + Synced(rows, IdsOf(init), saveFails),
                      |Passing(rows, IdsOf(init), saveFails)|,
                      |Failing(rows, IdsOf(init), saveFails)|)
    ensures SaveRun(base, init + [b], saveFails)
            == Tally(base + Synced(rows, IdsOf(init + [b]), saveFails),
                     |Passing(rows, IdsOf(init + [b]), saveFails)|,
                     |Failing(rows, IdsOf(init + [b]), saveFails)|)
  {
    assert (init + [b])[..|init + [b]| - 1] == init;
    IdsOfAppend(init, b);
    assert b.id !in IdsOf(init);
    SaveStep(base, rows, IdsOf(init), b, saveFails);
  }

  class ElasticsearchInitializer {
    const syncOnStartup: bool
    const repo: BoardRepository
    const search: BoardSearchRepository

    /** The setting defaults to off when it is not configured. */
    constructor (repo: BoardRepository, search: BoardSearchRepository, setting: Option<bool>)
      ensures this.repo == repo && this.search == search
      ensures syncOnStartup <==> setting == Some(true)
    {
      this.repo := repo;
      this.search := search;
      this.syncOnStartup := setting == Some(true);
    }

    /** The loop of `syncAllBoards`: one save per listed post. */
    method SaveAll(boards: seq<Post>, saveFails: int -> bool) returns (successCount: nat, failCount: nat)
      requires search.Valid()
      modifies search
      ensures search.Valid()
      ensures Tally(search.docs, successCount, failCount) == SaveRun(old(search.docs), boards, saveFails)
    {
      successCount, failCount := 0, 0;
      var i := 0;
      while i < |boards|
        invariant 0 <= i <= |boards|
        invariant search.Valid()
        invariant Tally(search.docs, successCount, failCount) == SaveRun(old(search.docs), boards[..i], saveFails)
      {
        var board := boards[i];
        var ok := search.Save(DocumentOf(board), saveFails(board.id));
        if ok {
          successCount := successCount + 1;
        } else {
          failCount := failCount + 1;
        }
        assert boards[..i + 1][..i] == boards[..i];
        i := i + 1;
      }
      assert boards[..|boards|] == boards;
    }

    /** `syncAllBoards`: save a document for every post the store lists,
        counting each save that throws and going on with the next.  An
        empty store saves nothing. */
    method SyncAllBoards(saveFails: int -> bool) returns (successCount: nat, failCount: nat)
      requires repo.Valid() && search.Valid()
      modifies search
      ensures search.Valid()
      ensures search.docs == old(search.docs) + Synced(repo.rows, repo.rows.Keys, saveFails)
      ensures successCount == |Passing(repo.rows, repo.rows.Keys, saveFails)|
      ensures failCount == |Failing(repo.rows, repo.rows.Keys, saveFails)|
      ensures successCount + failCount == |repo.rows|
    {
      var boards := repo.FindAll();
      PassingAndFailingSplit(repo.rows, saveFails);
      if |boards| == 0 {
        EmptyStoreSyncsNothing(repo.rows, saveFails);
        assert old(search.docs) + map[] == old(search.docs);
        return 0, 0;
      }
      successCount, failCount := SaveAll(boards, saveFails);
      ListingIds(boards, repo.rows);
      SaveRunMatchesSets(old(search.docs), repo.rows, boards, saveFails);
    }

    /** `run`: with the setting off nothing happens; with it on, the index
        is rebuilt from scratch and ends holding exactly the documents of
        the posts whose save went through. */
    method Run(saveFails: int -> bool) returns (successCount: nat, failCount: nat)
      requires repo.Valid() && search.Valid()
      modifies search
      ensures search.Valid()
      ensures !syncOnStartup ==> search.docs == old(search.docs) && successCount == 0 && failCount == 0
      ensures syncOnStartup ==>
        && search.docs == Synced(repo.rows, repo.rows.Keys, saveFails)
        && successCount == |Passing(repo.rows, repo.rows.Keys, saveFails)|
        && failCount == |Failing(repo.rows, repo.rows.Keys, saveFails)|
        && successCount + failCount == |repo.rows|
    {
      if !syncOnStartup {
        return 0, 0;
      }
      search.Recreate();
      successCount, failCount := SyncAllBoards(saveFails);
      assert map[] + Synced(repo.rows, repo.rows.Keys, saveFails) == Synced(repo.rows, repo.rows.Keys, saveFails);
    }
  }
}
