/** What a flattened file holds along any path from its root, by the names of the keys. */
module PdfPaths {
  import opened PdfScrub

  /** The keys a viewer would run. */
  predicate Runs(key: string) {
    key == "/AA" || key == "/OpenAction" || key == "/JavaScript" || key == "/JS" || key == "/Launch" || key == "/RichMedia" || key == "/XFA"
  }

  lemma ActiveByName(key: string)
    ensures Active(key) <==> Runs(key)
  {
  }

  /** Each object of the path is an element of the array before it, or a value of the dictionary before it. */
  predicate IsPath(g: Graph, path: seq<PdfObject>) {
    (forall i :: 0 <= i < |path| ==> path[i] in g) &&
    forall i :: 0 < i < |path| ==> LeadsOn(g, path[i - 1], path[i])
  }

  predicate LeadsOn(g: Graph, a: PdfObject, b: PdfObject)
    requires a in g
  {
    (a.shape == Array && exists j :: 0 <= j < |a.items| && a.items[j] == b) ||
    (a.shape == Dictionary && exists j :: 0 <= j < |g[a]| && g[a][j].value == b)
  }

  lemma EdgeLeadsOn(g: Graph, a: PdfObject, b: PdfObject)
    requires a in g
    ensures Edge(g, a, b) <==> LeadsOn(g, a, b)
  {
  }

  lemma {:induction false} PathReaches(g: Graph, path: seq<PdfObject>)
    requires path != [] && IsPath(g, path)
    ensures Reaches(g, path[0], path[|path| - 1])
  {
    if |path| == 1 {
      ReachesItself(g, path[0]);
    } else {
      var rest := path[1..];
      assert forall i :: 0 < i < |rest| ==> rest[i - 1] == path[i] && rest[i] == path[i + 1];
      PathReaches(g, rest);
      assert LeadsOn(g, path[0], path[1]);
      EdgeLeadsOn(g, path[0], path[1]);
      EdgeThenReaches(g, path[0], path[1], path[|path| - 1]);
    }
  }

  /** And whatever is reached is reached by a path. */
  lemma {:induction false} ReachedByPath(g: Graph, a: PdfObject, b: PdfObject, n: nat) returns (path: seq<PdfObject>)
    requires a in g && ReachesIn(g, a, b, n)
    ensures |path| == n + 1 && path[0] == a && path[n] == b && IsPath(g, path)
  {
    if n == 0 {
      path := [a];
    } else {
      var m :| m in g && Edge(g, a, m) && ReachesIn(g, m, b, n - 1);
      var rest := ReachedByPath(g, m, b, n - 1);
      EdgeLeadsOn(g, a, m);
      path := [a] + rest;
      forall i | 0 < i < |path| ensures LeadsOn(g, path[i - 1], path[i]) {
        if i > 1 { assert LeadsOn(g, rest[i - 2], rest[i - 1]); }
      }
    }
  }

  /** In the changed graph no path from the root comes to a dictionary with one of those keys. */
  lemma NoPathComesToARunKey(g: Graph, now: Graph, root: PdfObject, seen: set<PdfObject>, path: seq<PdfObject>, j: nat)
    requires Closed(g) && root in g && IsReachOf(g, root, seen) && ScrubbedSoFar(g, now, seen)
    requires path != [] && path[0] == root && IsPath(now, path)
    requires path[|path| - 1].shape == Dictionary && j < |now[path[|path| - 1]]|
    ensures !Runs(now[path[|path| - 1]][j].key)
  {
    var o := path[|path| - 1];
    PathReaches(now, path);
    NothingActiveIsReached(g, now, root, seen, o);
    ActiveByName(now[o][j].key);
  }

  /** No entry under another key is lost, and none is made. */
  lemma ScrubbingKeeps(entries: seq<Entry>, e: Entry)
    ensures e in Scrubbed(entries) <==> e in entries && !Runs(e.key)
  {
    ActiveByName(e.key);
    WithoutExactly(entries, KeySet(ACTIVE_KEYS), e);
  }

  lemma {:induction false} WithoutExactly(entries: seq<Entry>, gone: set<string>, e: Entry)
    ensures e in Without(entries, gone) <==> e in entries && e.key !in gone
  {
    if entries != [] {
      var (init, last) := (entries[..|entries| - 1], entries[|entries| - 1]);
      WithoutExactly(init, gone, e);
      assert entries == init + [last];
    }
  }
}
