/** Promotion to several boards, streamed and buffered (apps/worker/src/azure-devops-promote.service.ts). */
module AdoPromoteBoards {
  import opened Wrappers
  import opened AdoPromote
  import opened Sequences

  /** What is kept in memory for one board. */
  datatype Carried = Carried(memory: Memory, seenAdoIds: seq<int>)

  datatype World = World(db: map<string, Data>, boards: seq<Carried>)

  function BoardId(c: Carried): string {
    c.memory.config.boardId
  }

  ghost predicate Distinct(w: World) {
    && (forall i :: 0 <= i < |w.boards| ==> BoardId(w.boards[i]) in w.db)
    && (forall i, j :: 0 <= i < j < |w.boards| ==> BoardId(w.boards[i]) != BoardId(w.boards[j]))
  }

  function At(w: World, i: nat): Run
    requires i < |w.boards| && BoardId(w.boards[i]) in w.db
  {
    Run(Board(w.db[BoardId(w.boards[i])], w.boards[i].memory), w.boards[i].seenAdoIds)
  }

  /** Board `i` after a step: only its own part of the database is written. */
  function Put(w: World, i: nat, r: Run): World
    requires i < |w.boards|
  {
    World(w.db[BoardId(w.boards[i]) := r.board.data], w.boards[i := Carried(r.board.memory, r.seenAdoIds)])
  }

  function Config(r: Run): AdoPromote.Config {
    r.board.memory.config
  }

  ghost predicate KeepsConfig(f: Run -> Run) {
    forall r :: Config(f(r)) == Config(r)
  }

  /** One step of every board from number `i` on, in order. */
  ghost function Each(w: World, i: nat, f: Run -> Run): (z: World)
    requires Distinct(w) && KeepsConfig(f) && i <= |w.boards|
    ensures Distinct(z) && |z.boards| == |w.boards| && z.db.Keys == w.db.Keys
    decreases |w.boards| - i
  {
    if i == |w.boards| then w
    else
      PutKeepsDistinct(w, i, f(At(w, i)));
      Each(Put(w, i, f(At(w, i))), i + 1, f)
  }

  lemma PutKeepsDistinct(w: World, i: nat, r: Run)
    requires Distinct(w) && i < |w.boards| && Config(r) == Config(At(w, i))
    ensures Distinct(Put(w, i, r)) && |Put(w, i, r).boards| == |w.boards|
    ensures At(Put(w, i, r), i) == r
    ensures forall j :: 0 <= j < |w.boards| && j != i ==> At(Put(w, i, r), j) == At(w, j)
    ensures Put(w, i, r).db.Keys == w.db.Keys
    ensures forall b :: b in w.db && b != BoardId(w.boards[i]) ==> Put(w, i, r).db[b] == w.db[b]
  {
    var z := Put(w, i, r);
    assert forall j :: 0 <= j < |w.boards| ==> BoardId(z.boards[j]) == BoardId(w.boards[j]);
  }

  ghost predicate OnABoard(w: World, b: string) {
    exists i :: 0 <= i < |w.boards| && BoardId(w.boards[i]) == b
  }

  lemma EachStep(w: World, i: nat, f: Run -> Run)
    requires Distinct(w) && KeepsConfig(f) && i < |w.boards|
    ensures var p := Put(w, i, f(At(w, i)));
            Distinct(p) && |p.boards| == |w.boards| && Each(w, i, f) == Each(p, i + 1, f)
  {
    PutKeepsDistinct(w, i, f(At(w, i)));
    hide Put, Distinct, KeepsConfig;
  }

  /** Boards do not disturb one another: every one takes its own step. */
  lemma {:induction false} EachIsPointwise(w: World, i: nat, f: Run -> Run)
    requires Distinct(w) && KeepsConfig(f) && i <= |w.boards|
    ensures forall j :: 0 <= j < |w.boards| ==> At(Each(w, i, f), j) == if j < i then At(w, j) else f(At(w, j))
    decreases |w.boards| - i
  {
    if i < |w.boards| {
      var r := f(At(w, i));
      assert Config(r) == Config(At(w, i));
      hide KeepsConfig;
      EachStep(w, i, f);
      hide Each;
      PutKeepsDistinct(w, i, r);
      EachIsPointwise(Put(w, i, r), i + 1, f);
      hide Put, Distinct;
    }
  }

  lemma {:induction false} EachLeavesOthers(w: World, i: nat, f: Run -> Run, b: string)
    requires Distinct(w) && KeepsConfig(f) && i <= |w.boards| && !OnABoard(w, b)
    ensures Each(w, i, f).db.Keys == w.db.Keys && (b in w.db ==> Each(w, i, f).db[b] == w.db[b])
    decreases |w.boards| - i
  {
    if i < |w.boards| {
      var r := f(At(w, i));
      assert Config(r) == Config(At(w, i));
      hide KeepsConfig;
      EachStep(w, i, f);
      hide Each;
      PutKeepsDistinct(w, i, r);
      SameBoards(w, i, r);
      hide Put, Distinct;
      EachLeavesOthers(Put(w, i, r), i + 1, f, b);
    }
  }

  lemma SameBoards(w: World, i: nat, r: Run)
    requires Distinct(w) && i < |w.boards| && Config(r) == Config(At(w, i))
    ensures forall j :: 0 <= j < |w.boards| ==> BoardId(Put(w, i, r).boards[j]) == BoardId(w.boards[j])
  {
  }

  // ---- Streamed ----

  lemma {:induction false} PromoteKeepsConfig(b: Board, items: seq<Item>)
    ensures PromoteAll(b, items).memory.config == b.memory.config
  {
    if items != [] {
      var y := PromoteAll(b, items[..|items| - 1]);
      PromoteKeepsConfig(b, items[..|items| - 1]);
      if !y.memory.failed { PromoteTouches(y, items[|items| - 1]); }
    }
  }

  ghost function Batch(items: seq<Item>): (f: Run -> Run)
    ensures KeepsConfig(f) && forall r :: f(r) == ProcessBatch(r, items)
  {
    assert forall r :: Config(ProcessBatch(r, items)) == Config(r) by {
      forall r: Run ensures Config(ProcessBatch(r, items)) == Config(r) { PromoteKeepsConfig(r.board, items); }
    }
    r => ProcessBatch(r, items)
  }

  ghost function Finish(): (f: Run -> Run)
    ensures KeepsConfig(f) && forall r :: f(r) == FinalizeBoard(r)
  {
    r => FinalizeBoard(r)
  }

  ghost predicate BoardsKnown(db: map<string, Data>, configs: seq<AdoPromote.Config>) {
    && (forall i :: 0 <= i < |configs| ==> configs[i].boardId in db)
    && (forall i, j :: 0 <= i < j < |configs| ==> configs[i].boardId != configs[j].boardId)
  }

  function Carry(r: Run): Carried {
    Carried(r.board.memory, r.seenAdoIds)
  }

  /** Every board is snapshotted before the first batch. */
  ghost function Start(db: map<string, Data>, configs: seq<AdoPromote.Config>): (w: World)
    requires BoardsKnown(db, configs)
    ensures Distinct(w) && |w.boards| == |configs|
    ensures forall i :: 0 <= i < |configs| ==> At(w, i) == InitBoardState(db[configs[i].boardId], configs[i])
  {
    World(db,
        seq(|configs|, i requires 0 <= i < |configs| => Carry(InitBoardState(db[configs[i].boardId], configs[i]))))
  }

  ghost function StreamBatches(w: World, batches: seq<seq<Item>>): (z: World)
    requires Distinct(w)
    ensures Distinct(z) && |z.boards| == |w.boards| && z.db.Keys == w.db.Keys
  {
    if batches == [] then w else Each(StreamBatches(w, batches[..|batches| - 1]), 0, Batch(batches[|batches| - 1]))
  }

  /** `promoteProjectStream`: every batch goes to every board, and the boards are finalized at the end. */
  ghost function Streamed(db: map<string, Data>, configs: seq<AdoPromote.Config>, batches: seq<seq<Item>>): World
    requires BoardsKnown(db, configs)
  {
    Each(StreamBatches(Start(db, configs), batches), 0, Finish())
  }

  ghost predicate SameIds(w: World, z: World) {
    |z.boards| == |w.boards| && forall i :: 0 <= i < |w.boards| ==> BoardId(z.boards[i]) == BoardId(w.boards[i])
  }

  lemma EachKeepsIds(w: World, f: Run -> Run)
    requires Distinct(w) && KeepsConfig(f)
    ensures SameIds(w, Each(w, 0, f))
  {
    EachIsPointwise(w, 0, f);
    var z := Each(w, 0, f);
    forall i | 0 <= i < |w.boards| ensures BoardId(z.boards[i]) == BoardId(w.boards[i]) {
      assert Config(At(z, i)) == Config(At(w, i));
    }
  }

  lemma {:induction false} StreamIsPointwise(w: World, batches: seq<seq<Item>>)
    requires Distinct(w)
    ensures SameIds(w, StreamBatches(w, batches))
    ensures forall j :: 0 <= j < |w.boards| ==> At(StreamBatches(w, batches), j) == ProcessBatches(At(w, j), batches)
  {
    if batches != [] {
      var y := StreamBatches(w, batches[..|batches| - 1]);
      StreamIsPointwise(w, batches[..|batches| - 1]);
      EachIsPointwise(y, 0, Batch(batches[|batches| - 1]));
      EachKeepsIds(y, Batch(batches[|batches| - 1]));
      hide Each, Distinct, ProcessBatch;
    }
  }

  lemma {:induction false} StreamLeavesOthers(w: World, batches: seq<seq<Item>>, b: string)
    requires Distinct(w) && b in w.db && !OnABoard(w, b)
    ensures StreamBatches(w, batches).db[b] == w.db[b]
  {
    if batches != [] {
      var y := StreamBatches(w, batches[..|batches| - 1]);
      StreamLeavesOthers(w, batches[..|batches| - 1], b);
      StreamIsPointwise(w, batches[..|batches| - 1]);
      SameBoardsOn(w, y);
      hide Distinct, OnABoard, Each;
      EachLeavesOthers(y, 0, Batch(batches[|batches| - 1]), b);
    }
  }

  lemma SameBoardsOn(w: World, z: World)
    requires SameIds(w, z)
    ensures forall b :: OnABoard(w, b) <==> OnABoard(z, b)
  {
    forall b ensures OnABoard(w, b) <==> OnABoard(z, b) {
      if OnABoard(w, b) {
        var i :| 0 <= i < |w.boards| && BoardId(w.boards[i]) == b;
        assert BoardId(z.boards[i]) == b;
      }
    }
  }

  // ---- Buffered ----

  /** `promoteAll`: one board after the other, each with all the items, and snapshotted when its turn comes. */
  ghost function Buffered(db: map<string, Data>, configs: seq<AdoPromote.Config>, items: seq<Item>): (w: World)
    requires BoardsKnown(db, configs)
    ensures w.db.Keys == db.Keys
  {
    if configs == [] then World(db, [])
    else
      var n := |configs| - 1;
      var w := Buffered(db, configs[..n], items);
      var r := Promoted(w.db[configs[n].boardId], configs[n], items);
      World(w.db[configs[n].boardId := r.board.data], w.boards + [Carry(r)])
  }

  ghost predicate Solo(db: map<string, Data>, configs: seq<AdoPromote.Config>, items: seq<Item>, w: World)
    requires BoardsKnown(db, configs)
  {
    && |w.boards| == |configs| && w.db.Keys == db.Keys
    && (forall i :: 0 <= i < |configs| ==>
          var r := Promoted(db[configs[i].boardId], configs[i], items);
          w.boards[i] == Carry(r) && w.db[configs[i].boardId] == r.board.data)
    && (forall b :: b in db && (forall i :: 0 <= i < |configs| ==> configs[i].boardId != b) ==> w.db[b] == db[b])
  }

  lemma SoloStep(db: map<string, Data>, configs: seq<AdoPromote.Config>, items: seq<Item>, w: World)
    requires BoardsKnown(db, configs) && configs != [] && Solo(db, configs[..|configs| - 1], items, w)
    ensures var c := configs[|configs| - 1];
            var r := Promoted(db[c.boardId], c, items);
            w.db[c.boardId] == db[c.boardId]
            && Solo(db, configs, items, World(w.db[c.boardId := r.board.data], w.boards + [Carry(r)]))
  {
    hide Promoted, Carry;
    var init, c := configs[..|configs| - 1], configs[|configs| - 1];
    assert forall i :: 0 <= i < |init| ==> init[i] == configs[i];
    assert forall i :: 0 <= i < |init| ==> init[i].boardId != c.boardId;
    var r := Promoted(db[c.boardId], c, items);
    SameKeys(w.db, c.boardId, r.board.data);
  }

  lemma SameKeys(db: map<string, Data>, b: string, d: Data)
    requires b in db
    ensures db[b := d].Keys == db.Keys
  {
  }

  lemma {:induction false} BufferedIsSolo(db: map<string, Data>, configs: seq<AdoPromote.Config>, items: seq<Item>)
    requires BoardsKnown(db, configs)
    ensures Solo(db, configs, items, Buffered(db, configs, items))
  {
    if configs != [] {
      hide Promoted;
      BufferedIsSolo(db, configs[..|configs| - 1], items);
      SoloStep(db, configs, items, Buffered(db, configs[..|configs| - 1], items));
      hide Solo;
    }
  }

  lemma {:induction false} SoloIsUnique(
    db: map<string, Data>, configs: seq<AdoPromote.Config>, items: seq<Item>, w: World, z: World)
    requires BoardsKnown(db, configs) && Solo(db, configs, items, w) && Solo(db, configs, items, z)
    ensures w == z
  {
    hide Promoted;
    assert w.boards == z.boards;
    forall b | b in db ensures w.db[b] == z.db[b] {
      if i :| 0 <= i < |configs| && configs[i].boardId == b {
        assert w.db[configs[i].boardId] == z.db[configs[i].boardId];
      }
    }
    assert w.db == z.db;
  }

  lemma StreamedBoard(db: map<string, Data>, configs: seq<AdoPromote.Config>, batches: seq<seq<Item>>, i: nat)
    requires BoardsKnown(db, configs) && i < |configs|
    ensures var z := Streamed(db, configs, batches);
            var r := Promoted(db[configs[i].boardId], configs[i], Flatten(batches));
            && |z.boards| == |configs| && z.boards[i] == Carry(r)
            && configs[i].boardId in z.db && z.db[configs[i].boardId] == r.board.data
  {
    var w := Start(db, configs);
    var r := InitBoardState(db[configs[i].boardId], configs[i]);
    assert At(w, i) == r;
    StartId(db, configs, i);
    hide Start, InitBoardState;
    StreamIsPointwise(w, batches);
    var y := StreamBatches(w, batches);
    hide StreamBatches;
    EachIsPointwise(y, 0, Finish());
    EachKeepsIds(y, Finish());
    BatchingDoesNotMatter(r, batches);
    hide Each, FinalizeBoard, ProcessBatch, ProcessBatches, Distinct;
    assert At(Each(y, 0, Finish()), i) == FinalizeBoard(ProcessBatch(r, Flatten(batches)));
  }

  lemma StreamedOther(db: map<string, Data>, configs: seq<AdoPromote.Config>, batches: seq<seq<Item>>, b: string)
    requires BoardsKnown(db, configs) && b in db && forall i :: 0 <= i < |configs| ==> configs[i].boardId != b
    ensures b in Streamed(db, configs, batches).db && Streamed(db, configs, batches).db[b] == db[b]
  {
    var w := Start(db, configs);
    forall i: nat | i < |configs| ensures BoardId(w.boards[i]) == configs[i].boardId && w.db == db {
      StartId(db, configs, i);
    }
    assert w.db == db;
    assert !OnABoard(w, b);
    hide Start;
    StreamLeavesOthers(w, batches, b);
    StreamIsPointwise(w, batches);
    var y := StreamBatches(w, batches);
    SameBoardsOn(w, y);
    hide StreamBatches, OnABoard, Distinct;
    EachLeavesOthers(y, 0, Finish(), b);
  }

  lemma StreamedIsSolo(db: map<string, Data>, configs: seq<AdoPromote.Config>, batches: seq<seq<Item>>)
    requires BoardsKnown(db, configs)
    ensures Solo(db, configs, Flatten(batches), Streamed(db, configs, batches))
  {
    hide Promoted, Streamed, Flatten, Carry;
    forall i | 0 <= i < |configs|
      ensures var r := Promoted(db[configs[i].boardId], configs[i], Flatten(batches));
              && |Streamed(db, configs, batches).boards| == |configs|
              && Streamed(db, configs, batches).boards[i] == Carry(r)
              && configs[i].boardId in Streamed(db, configs, batches).db
              && Streamed(db, configs, batches).db[configs[i].boardId] == r.board.data
    {
      StreamedBoard(db, configs, batches, i);
    }
    forall b | b in db && (forall i :: 0 <= i < |configs| ==> configs[i].boardId != b)
      ensures b in Streamed(db, configs, batches).db && Streamed(db, configs, batches).db[b] == db[b]
    {
      StreamedOther(db, configs, batches, b);
    }
    StreamedKeys(db, configs, batches);
  }

  lemma StreamedKeys(db: map<string, Data>, configs: seq<AdoPromote.Config>, batches: seq<seq<Item>>)
    requires BoardsKnown(db, configs)
    ensures Streamed(db, configs, batches).db.Keys == db.Keys
    ensures |Streamed(db, configs, batches).boards| == |configs|
  {
  }

  lemma StartId(db: map<string, Data>, configs: seq<AdoPromote.Config>, i: nat)
    requires BoardsKnown(db, configs) && i < |configs|
    ensures BoardId(Start(db, configs).boards[i]) == configs[i].boardId
    ensures Start(db, configs).db == db
  {
  }

  /**
   * For every cut of the items into batches and every set of distinct boards, streamed promotion ends in the same
   * rows, statuses, groups, history and counters, board by board, as promoting each board at once. It is stated for
   * promotions in which no database call throws: one that does ends the run.
   */
  lemma StreamedEqualsBuffered(db: map<string, Data>, configs: seq<AdoPromote.Config>, batches: seq<seq<Item>>)
    requires BoardsKnown(db, configs)
    requires forall i :: 0 <= i < |configs| ==>
               !Promoted(db[configs[i].boardId], configs[i], Flatten(batches)).board.memory.failed
    ensures Streamed(db, configs, batches) == Buffered(db, configs, Flatten(batches))
    ensures forall i :: 0 <= i < |configs| ==> !Streamed(db, configs, batches).boards[i].memory.failed
  {
    StreamedIsSolo(db, configs, batches);
    BufferedIsSolo(db, configs, Flatten(batches));
    hide Promoted, Streamed, Buffered;
    SoloIsUnique(db, configs, Flatten(batches), Streamed(db, configs, batches),
        Buffered(db, configs, Flatten(batches)));
  }
}
