/**
 The commits already contained in the current branch, as far as the loaded rows of the
 commit graph tell: a worklist walk from HEAD along parent links. A parent whose row is
 not loaded is kept as a leaf.
 */
module CommitGraph {
  import opened Options

  datatype Row = Row(id: string, parents: seq<string>, isHead: bool)

  type ParentMap = map<string, seq<string>>

  /** The first row that carries the head reference. */
  function HeadId(rows: seq<Row>): Option<string> {
    if rows == [] then None
    else if rows[0].isHead then Some(rows[0].id)
    else HeadId(rows[1..])
  }

  /** Row `k` carries the head reference, and none before it. */
  predicate FirstHead(rows: seq<Row>, k: int) {
    0 <= k < |rows| && rows[k].isHead && forall j | 0 <= j < k :: !rows[j].isHead
  }

  lemma {:induction false} HeadIdExactly(rows: seq<Row>)
    ensures forall k | FirstHead(rows, k) :: HeadId(rows) == Some(rows[k].id)
    ensures HeadId(rows).None? <==> forall row | row in rows :: !row.isHead
  {
    if rows != [] && !rows[0].isHead {
      HeadIdExactly(rows[1..]);
      forall k | FirstHead(rows, k)
        ensures HeadId(rows) == Some(rows[k].id)
      {
        assert FirstHead(rows[1..], k - 1);
      }
      assert rows == [rows[0]] + rows[1..];
    } else if rows != [] {
      assert rows[0] in rows;
    }
  }

  /** Row `k` is the last one of its id. */
  predicate LastOfId(rows: seq<Row>, k: int) {
    0 <= k < |rows| && forall j | k < j < |rows| :: rows[j].id != rows[k].id
  }

  /** The loaded ids are those of the rows, each with the parents of its last row. */
  lemma {:induction false} LastRowCounts(rows: seq<Row>, id: string)
    ensures id in ParentsById(rows) <==> exists row :: row in rows && row.id == id
    ensures forall k | LastOfId(rows, k) :: rows[k].id in ParentsById(rows) && ParentsById(rows)[rows[k].id] == rows[k].parents
  {
    if rows != [] {
      var front, last := rows[..|rows| - 1], rows[|rows| - 1];
      LastRowCounts(front, id);
      assert rows == front + [last];
      forall k | LastOfId(rows, k)
        ensures rows[k].id in ParentsById(rows) && ParentsById(rows)[rows[k].id] == rows[k].parents
      {
        if k < |front| {
          assert rows[|front|].id != rows[k].id;
          assert forall j | 0 <= j < |front| :: front[j] == rows[j];
          assert LastOfId(front, k);
        }
      }
    }
  }

  /** When an id occurs in several rows, the last one counts. */
  function ParentsById(rows: seq<Row>): ParentMap {
    if rows == [] then map[]
    else
      var last := rows[|rows| - 1];
      ParentsById(rows[..|rows| - 1])[last.id := last.parents]
  }

  function Parents(links: ParentMap, id: string): seq<string> {
    if id in links then links[id] else []
  }

  // ---- Reachability, defined by paths ----

  ghost predicate IsPath(links: ParentMap, path: seq<string>) {
    && path != []
    && forall k | 0 < k < |path| :: path[k] in Parents(links, path[k - 1])
  }

  ghost predicate Joins(links: ParentMap, path: seq<string>, from: string, to: string) {
    IsPath(links, path) && path[0] == from && path[|path| - 1] == to
  }

  ghost predicate Reachable(links: ParentMap, from: string, to: string) {
    exists path :: Joins(links, path, from, to)
  }

  lemma ReachableReflexive(links: ParentMap, id: string)
    ensures Reachable(links, id, id)
  {
    assert Joins(links, [id], id, id);
  }

  lemma ReachableTransitive(links: ParentMap, a: string, b: string, c: string)
    requires Reachable(links, a, b) && Reachable(links, b, c)
    ensures Reachable(links, a, c)
  {
    var p :| Joins(links, p, a, b);
    var q :| Joins(links, q, b, c);
    assert Joins(links, p + q[1..], a, c);
  }

  lemma ReachableByLink(links: ParentMap, from: string, id: string, parent: string)
    requires Reachable(links, from, id) && parent in Parents(links, id)
    ensures Reachable(links, from, parent)
  {
    assert Joins(links, [id, parent], id, parent);
    ReachableTransitive(links, from, id, parent);
  }

  lemma {:induction false} ClosedContainsPath(links: ParentMap, closed: set<string>, path: seq<string>)
    requires IsPath(links, path) && path[0] in closed
    requires forall id, p | id in closed && p in Parents(links, id) :: p in closed
    ensures path[|path| - 1] in closed
  {
    if |path| > 1 {
      ClosedContainsPath(links, closed, path[1..]);
    }
  }

  // ---- The worklist ----

  ghost function Universe(links: ParentMap, head: string): set<string> {
    {head} + set id, p | id in links && p in links[id] :: p
  }

  method ReachableFromHead(rows: seq<Row>) returns (reached: set<string>)
    ensures (forall row | row in rows :: !row.isHead) ==> reached == {}
    ensures forall k | FirstHead(rows, k) ::
      if rows[k].id == "" then reached == {}
      else forall id :: id in reached <==> Reachable(ParentsById(rows), rows[k].id, id)
    ensures HeadId(rows) in {None, Some("")} ==> reached == {}
    ensures HeadId(rows) !in {None, Some("")} ==>
      forall id :: id in reached <==> Reachable(ParentsById(rows), HeadId(rows).value, id)
  {
    reached := {};
    HeadIdExactly(rows);
    if HeadId(rows) == None || HeadId(rows).value == "" {
      return;
    }
    reached := CollectReachable(ParentsById(rows), HeadId(rows).value);
  }

  /** The worklist. */
  method CollectReachable(links: ParentMap, head: string) returns (reached: set<string>)
    ensures forall id :: id in reached <==> Reachable(links, head, id)
  {
    reached := {};
    var stack := [head];
    ReachableReflexive(links, head);
    ghost var universe := Universe(links, head);
    while stack != []
      invariant reached <= universe
      invariant forall id <- stack :: id in universe
      invariant forall id | id in reached || id in stack :: Reachable(links, head, id)
      invariant forall id, p | id in reached && p in Parents(links, id) :: p in reached || p in stack
      invariant head in reached || head in stack
      decreases universe - reached, |stack|
    {
      var id := stack[|stack| - 1];
      stack := stack[..|stack| - 1];
      if id !in reached {
        ghost var before := reached;
        reached := reached + {id};
        stack := PushUnseen(Parents(links, id), reached, stack);
        forall p | p in Parents(links, id)
          ensures Reachable(links, head, p)
        {
          ReachableByLink(links, head, id, p);
        }
        assert universe - reached < universe - before by {
          assert id in universe - before && id !in universe - reached;
        }
      }
    }
    forall id | Reachable(links, head, id)
      ensures id in reached
    {
      var path :| Joins(links, path, head, id);
      ClosedContainsPath(links, reached, path);
    }
  }

  method PushUnseen(parents: seq<string>, seen: set<string>, stack: seq<string>) returns (pushed: seq<string>)
    ensures forall id :: id in pushed <==> id in stack || (id in parents && id !in seen)
    ensures stack <= pushed
  {
    pushed := stack;
    for k := 0 to |parents|
      invariant stack <= pushed
      invariant forall id :: id in pushed <==> id in stack || (id in parents[..k] && id !in seen)
    {
      if parents[k] !in seen {
        pushed := pushed + [parents[k]];
      }
    }
    assert parents[..|parents|] == parents;
  }

  // ---- Loading more rows ----

  /** Every reachable set grows, whatever commit it starts from. */
  ghost predicate OnlyGrows(before: ParentMap, after: ParentMap) {
    forall from, to | Reachable(before, from, to) :: Reachable(after, from, to)
  }

  ghost predicate LinksStillCovered(before: ParentMap, after: ParentMap) {
    forall id, p | id in before && p in before[id] :: Reachable(after, id, p)
  }

  lemma {:induction false} CoveredPath(before: ParentMap, after: ParentMap, path: seq<string>)
    requires LinksStillCovered(before, after) && IsPath(before, path)
    ensures Reachable(after, path[0], path[|path| - 1])
  {
    if |path| == 1 {
      ReachableReflexive(after, path[0]);
    } else {
      CoveredPath(before, after, path[1..]);
      ReachableTransitive(after, path[0], path[1], path[|path| - 1]);
    }
  }

  /** Loading rows keeps every commit reached so far exactly when each old link is still covered. */
  lemma GrowthCondition(before: ParentMap, after: ParentMap)
    ensures OnlyGrows(before, after) <==> LinksStillCovered(before, after)
  {
    if OnlyGrows(before, after) {
      forall id, p | id in before && p in before[id]
        ensures Reachable(after, id, p)
      {
        assert Joins(before, [id, p], id, p);
      }
    }
    if LinksStillCovered(before, after) {
      forall from, to | Reachable(before, from, to)
        ensures Reachable(after, from, to)
      {
        var path :| Joins(before, path, from, to);
        CoveredPath(before, after, path);
      }
    }
  }

  lemma {:induction false} HeadIdAppend(rows: seq<Row>, more: seq<Row>)
    requires HeadId(rows).Some?
    ensures HeadId(rows + more) == HeadId(rows)
  {
    if !rows[0].isHead {
      HeadIdAppend(rows[1..], more);
      assert (rows + more)[1..] == rows[1..] + more;
    }
  }

  lemma {:induction false} ParentsAppend(rows: seq<Row>, more: seq<Row>)
    ensures ParentsById(rows + more) == ParentsById(rows) + ParentsById(more)
  {
    if more == [] {
      assert rows + more == rows;
    } else {
      var front := more[..|more| - 1];
      assert (rows + more)[..|rows + more| - 1] == rows + front;
      ParentsAppend(rows, front);
    }
  }

  /** Paging in rows that do not redefine a loaded commit never loses a reached commit. */
  lemma AppendingRowsOnlyGrows(rows: seq<Row>, more: seq<Row>)
    requires HeadId(rows).Some?
    requires forall id | id in ParentsById(rows) && id in ParentsById(more) ::
               ParentsById(more)[id] == ParentsById(rows)[id]
    ensures HeadId(rows + more) == HeadId(rows)
    ensures OnlyGrows(ParentsById(rows), ParentsById(rows + more))
  {
    var before, after := ParentsById(rows), ParentsById(rows + more);
    HeadIdAppend(rows, more);
    ParentsAppend(rows, more);
    forall id, p | id in before && p in before[id]
      ensures Reachable(after, id, p)
    {
      assert Joins(after, [id, p], id, p);
    }
    GrowthCondition(before, after);
  }

  /** Rows of one repository: the id of a commit fixes its parents. */
  ghost predicate Loaded(parentsOf: string -> seq<string>, rows: seq<Row>) {
    forall row | row in rows :: row.parents == parentsOf(row.id)
  }

  lemma {:induction false} LoadedParents(parentsOf: string -> seq<string>, rows: seq<Row>, id: string)
    requires Loaded(parentsOf, rows) && id in ParentsById(rows)
    ensures ParentsById(rows)[id] == parentsOf(id)
  {
    var front, last := rows[..|rows| - 1], rows[|rows| - 1];
    assert last in rows;
    if id != last.id {
      LoadedParents(parentsOf, front, id);
    }
  }

  /** Whatever pages of a repository are loaded one after another, no reached commit is lost. */
  lemma PagesOnlyGrow(parentsOf: string -> seq<string>, rows: seq<Row>, more: seq<Row>)
    requires HeadId(rows).Some? && Loaded(parentsOf, rows) && Loaded(parentsOf, more)
    ensures HeadId(rows + more) == HeadId(rows)
    ensures OnlyGrows(ParentsById(rows), ParentsById(rows + more))
  {
    forall id | id in ParentsById(rows) && id in ParentsById(more)
      ensures ParentsById(more)[id] == ParentsById(rows)[id]
    {
      LoadedParents(parentsOf, rows, id);
      LoadedParents(parentsOf, more, id);
    }
    AppendingRowsOnlyGrows(rows, more);
  }

  /** That an id fixes its parents is needed: other parents for a loaded id could lose a reached commit. */
  lemma RedefinedRowLosesCommit()
    ensures
      var rows := [Row("head", ["old"], true)];
      var more := [Row("head", [], false)];
      && HeadId(rows + more) == HeadId(rows)
      && Reachable(ParentsById(rows), "head", "old")
      && !Reachable(ParentsById(rows + more), "head", "old")
  {
    var rows, more := [Row("head", ["old"], true)], [Row("head", [], false)];
    ParentsAppend(rows, more);
    var before, after := ParentsById(rows), ParentsById(rows + more);
    assert before == map["head" := ["old"]];
    assert Joins(before, ["head", "old"], "head", "old");
    assert ParentsById(more) == map["head" := []];
    assert "old" != "head";
    if Reachable(after, "head", "old") {
      var path :| Joins(after, path, "head", "old");
      ClosedContainsPath(after, {"head"}, path);
    }
  }
}
