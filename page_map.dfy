/**
 * `Walk` and `MapPages` (page/map.go): the pages of a tree in breadth-first
 * order, and the index from URL path to page built from that order.
 */
module PageMap {
  import opened Wrappers
  import opened Urls
  import opened PageModel

  /**
   * `order` lists `root` and then, in order, the sub-pages of the pages it
   * lists: the sequence a breadth-first queue started at `root` emits.
   */
  ghost predicate BreadthFirst(pages: map<PageId, Page>, root: PageId, order: seq<PageId>)
  {
    && (forall k | 0 <= k < |order| :: order[k] in pages)
    && order == [root] + Kids(pages, order)
  }

  /** Two sequences without a common element, each without repeats, joined without repeats. */
  lemma DistinctJoin(a: seq<PageId>, b: seq<PageId>)
    requires Distinct(a) && Distinct(b)
    requires forall k | 0 <= k < |b| :: b[k] !in a
    ensures Distinct(a + b)
  {
    var ab := a + b;
    forall i, j | 0 <= i < j < |ab|
      ensures ab[i] != ab[j]
    {
      if i < |a| && j >= |a| {
        assert ab[j] == b[j - |a|] && ab[i] in a;
      }
    }
  }

  /**
   * What holds of the queue `todo` and the pages `order` already emitted:
   * together they are `root` and the sub-pages of the emitted pages, all
   * below `root` and none twice.
   */
  ghost predicate Queue(pages: map<PageId, Page>, root: PageId, order: seq<PageId>, todo: seq<PageId>)
    requires Tree(pages)
  {
    && (forall k | 0 <= k < |order| :: order[k] in pages && Descends(pages, order[k], root))
    && (forall k | 0 <= k < |todo| :: todo[k] in pages && Descends(pages, todo[k], root))
    && order + todo == [root] + Kids(pages, order)
    && Distinct(order + todo)
  }

  /** The head of the queue has not been emitted yet. */
  lemma HeadNotEmitted(order: seq<PageId>, todo: seq<PageId>)
    requires |todo| > 0 && Distinct(order + todo)
    ensures todo[0] !in order
  {
    forall i | 0 <= i < |order|
      ensures order[i] != todo[0]
    {
      assert (order + todo)[i] == order[i] && (order + todo)[|order|] == todo[0];
    }
  }

  /**
   * A page leaving the head of the queue has sub-pages that were never
   * queued: every queued page other than `root` was queued by its parent,
   * which has already left the queue.
   */
  lemma FreshKids(pages: map<PageId, Page>, root: PageId, order: seq<PageId>, todo: seq<PageId>)
    requires Tree(pages) && root in pages && |todo| > 0
    requires Queue(pages, root, order, todo)
    ensures forall k | k in pages[todo[0]].subPages :: k !in order + todo
  {
    var x := todo[0];
    HeadNotEmitted(order, todo);
    assert Linked(pages, x);
    forall k | k in pages[x].subPages
      ensures k !in order + todo
    {
      assert k in pages && pages[k].parent == Some(x);
      assert Linked(pages, k);
      AncestorBelow(pages, x, root);
      forall j | 0 <= j < |order|
        ensures k !in pages[order[j]].subPages
      {
        assert Linked(pages, order[j]) && order[j] != x;
      }
      KidsMember(pages, order, k);
    }
  }

  /** Emitting the head and queueing its sub-pages keeps the queue equal to `root` and the emitted pages' sub-pages. */
  lemma StepShape(pages: map<PageId, Page>, root: PageId, order: seq<PageId>, todo: seq<PageId>)
    requires |todo| > 0 && todo[0] in pages
    requires forall k | 0 <= k < |order| :: order[k] in pages
    requires order + todo == [root] + Kids(pages, order)
    ensures order + [todo[0]] + (todo[1..] + pages[todo[0]].subPages) == [root] + Kids(pages, order + [todo[0]])
  {
    var x, subs := todo[0], pages[todo[0]].subPages;
    KidsSnoc(pages, order, x);
    ShiftHead(order, todo, subs);
    Assoc([root], Kids(pages, order), subs);
  }

  /** Moving the head of `t` to the end of `a` and appending `b` to the rest. */
  lemma ShiftHead(a: seq<PageId>, t: seq<PageId>, b: seq<PageId>)
    requires |t| > 0
    ensures a + [t[0]] + (t[1..] + b) == (a + t) + b
  {
    assert t == [t[0]] + t[1..];
  }

  /** Sequence concatenation is associative. */
  lemma Assoc(a: seq<PageId>, b: seq<PageId>, c: seq<PageId>)
    ensures (a + b) + c == a + (b + c)
  {
  }

  /** Emitting the head and queueing its sub-pages keeps every page below `root`. */
  lemma StepBelow(pages: map<PageId, Page>, root: PageId, order: seq<PageId>, todo: seq<PageId>)
    requires Tree(pages) && |todo| > 0
    requires forall k | 0 <= k < |order| :: order[k] in pages && Descends(pages, order[k], root)
    requires forall k | 0 <= k < |todo| :: todo[k] in pages && Descends(pages, todo[k], root)
    ensures var order', todo' := order + [todo[0]], todo[1..] + pages[todo[0]].subPages;
      && (forall k | 0 <= k < |order'| :: order'[k] in pages && Descends(pages, order'[k], root))
      && (forall k | 0 <= k < |todo'| :: todo'[k] in pages && Descends(pages, todo'[k], root))
  {
    var current := todo[0];
    var subs := pages[current].subPages;
    var order', todo' := order + [current], todo[1..] + subs;
    forall k | 0 <= k < |order'|
      ensures order'[k] in pages && Descends(pages, order'[k], root)
    {
      if k < |order| {
        assert order'[k] == order[k];
      }
    }
    forall k | 0 <= k < |todo'|
      ensures todo'[k] in pages && Descends(pages, todo'[k], root)
    {
      if k < |todo| - 1 {
        assert todo'[k] == todo[k + 1];
      } else {
        assert todo'[k] == subs[k - |todo| + 1];
        ChildDescends(pages, current, subs[k - |todo| + 1], root);
      }
    }
  }

  /** One round of the queue: emitting its head and queueing the head's sub-pages keeps `Queue`. */
  lemma WalkStep(pages: map<PageId, Page>, root: PageId, order: seq<PageId>, todo: seq<PageId>)
    requires Tree(pages) && root in pages && |todo| > 0
    requires Queue(pages, root, order, todo)
    ensures Queue(pages, root, order + [todo[0]], todo[1..] + pages[todo[0]].subPages)
  {
    var current := todo[0];
    var subs := pages[current].subPages;
    FreshKids(pages, root, order, todo);
    assert Linked(pages, current);
    DistinctJoin(order + todo, subs);
    StepShape(pages, root, order, todo);
    StepBelow(pages, root, order, todo);
    ShiftHead(order, todo, subs);
  }

  /** Every page below `root` is listed by a sequence closed under taking sub-pages. */
  lemma {:induction false} Complete(pages: map<PageId, Page>, root: PageId, order: seq<PageId>, c: PageId)
    requires Tree(pages) && root in pages && c in pages
    requires BreadthFirst(pages, root, order)
    requires Descends(pages, c, root)
    ensures c in order
    decreases c
  {
    if c != root {
      assert Linked(pages, c);
      var q := pages[c].parent.value;
      assert Ancestry(pages, c) == Ancestry(pages, q) + [c];
      Complete(pages, root, order, q);
      KidsMember(pages, order, c);
      assert order[1..] == Kids(pages, order);
    } else {
      assert order[0] == root;
    }
  }

  /** A finished queue: the emitted pages are exactly the pages below `root`, in breadth-first order. */
  lemma WalkDone(pages: map<PageId, Page>, root: PageId, order: seq<PageId>)
    requires Tree(pages) && root in pages
    requires Queue(pages, root, order, [])
    ensures BreadthFirst(pages, root, order) && Distinct(order)
    ensures forall c | c in pages :: c in order <==> Descends(pages, c, root)
  {
    assert order == order + [];
    forall c | c in pages && Descends(pages, c, root)
      ensures c in order
    {
      Complete(pages, root, order, c);
    }
    forall c | c in order
      ensures c in pages && Descends(pages, c, root)
    {
      var i :| 0 <= i < |order| && order[i] == c;
    }
  }

  /** The queue at the start holds just `root`. */
  lemma QueueStart(pages: map<PageId, Page>, root: PageId)
    requires Tree(pages) && root in pages
    ensures Queue(pages, root, [], [root])
  {
    assert Ancestry(pages, root)[|Ancestry(pages, root)| - 1] == root;
  }

  /** Emitting a page not emitted before shrinks the set of pages still to emit. */
  lemma EmitShrinks(keys: set<PageId>, order: seq<PageId>, x: PageId)
    requires x in keys && x !in order
    ensures keys - (set y | y in order + [x]) < keys - (set y | y in order)
  {
    assert (set y | y in order + [x]) == (set y | y in order) + {x};
    assert x in keys - (set y | y in order);
  }

  /** Pushes the sub-pages `subs` onto the back of the queue one by one. */
  method PushBackAll(todo: seq<PageId>, subs: seq<PageId>) returns (queue: seq<PageId>)
    ensures queue == todo + subs
  {
    queue := todo;
    for s := 0 to |subs|
      invariant queue == todo + subs[..s]
    {
      assert subs[..s + 1] == subs[..s] + [subs[s]];
      queue := queue + [subs[s]];
    }
    assert subs[..|subs|] == subs;
  }

  /** One round of `Walk`'s queue keeps `Queue` and emits a page not emitted before. */
  lemma WalkRound(pages: map<PageId, Page>, root: PageId, order: seq<PageId>, todo: seq<PageId>)
    requires Tree(pages) && root in pages && |todo| > 0
    requires Queue(pages, root, order, todo)
    ensures todo[0] in pages && todo[0] !in order
    ensures Queue(pages, root, order + [todo[0]], todo[1..] + pages[todo[0]].subPages)
    ensures pages.Keys - (set y | y in order + [todo[0]]) < pages.Keys - (set y | y in order)
  {
    WalkStep(pages, root, order, todo);
    HeadNotEmitted(order, todo);
    EmitShrinks(pages.Keys, order, todo[0]);
  }

  /**
   * `Walk`: a queue holds `root`; each round takes the page at its head,
   * emits it and queues its sub-pages. Every page below `root` is emitted
   * exactly once, in breadth-first order.
   */
  method Walk(pages: map<PageId, Page>, root: PageId) returns (order: seq<PageId>)
    requires Tree(pages) && root in pages
    ensures BreadthFirst(pages, root, order)
    ensures Distinct(order)
    ensures forall c | c in pages :: c in order <==> Descends(pages, c, root)
  {
    var todo := [root];
    order := [];
    QueueStart(pages, root);
    while |todo| > 0
      invariant Queue(pages, root, order, todo)
      decreases pages.Keys - (set y | y in order)
    {
      WalkRound(pages, root, order, todo);
      var current := todo[0];
      todo := todo[1..];
      order := order + [current];
      todo := PushBackAll(todo, pages[current].subPages);
    }
    WalkDone(pages, root, order);
  }

  /** The map key `MapPages` files a page under: its URL path, "/" when that is empty. */
  function PathKey(p: Page): (key: string)
    ensures key != ""
    ensures p.url.path != "" ==> key == p.url.path
    ensures p.url.path == "" ==> key == "/"
  {
    if p.url.path == "" then "/" else p.url.path
  }

  /** The map `MapPages` has built after the pages of `s`, taken in order. */
  ghost function PathIndex(pages: map<PageId, Page>, s: seq<PageId>): map<string, PageId>
    requires forall k | 0 <= k < |s| :: s[k] in pages
  {
    if |s| == 0 then map[]
    else
      var m := PathIndex(pages, s[..|s| - 1]);
      var p := pages[s[|s| - 1]];
      if p.external then m else m[PathKey(p) := s[|s| - 1]]
  }

  /** `MapPages` files page `p` under `key`: `p` is internal and its path key is `key`. */
  predicate Filed(p: Page, key: string)
  {
    !p.external && PathKey(p) == key
  }

  /** The index in `s` of the last page filed under `key`, or -1 when there is none. */
  function LastFiled(pages: map<PageId, Page>, s: seq<PageId>, key: string): (i: int)
    requires forall k | 0 <= k < |s| :: s[k] in pages
    ensures -1 <= i < |s|
    ensures 0 <= i ==> Filed(pages[s[i]], key)
    ensures forall j | i < j < |s| :: !Filed(pages[s[j]], key)
  {
    if |s| == 0 then -1
    else if Filed(pages[s[|s| - 1]], key) then |s| - 1
    else LastFiled(pages, s[..|s| - 1], key)
  }

  /**
   * The keys are the paths of the internal pages of `s`; each key holds the
   * last internal page of `s` with that path.
   */
  lemma {:induction false} PathIndexSpec(pages: map<PageId, Page>, s: seq<PageId>, key: string)
    requires forall k | 0 <= k < |s| :: s[k] in pages
    ensures key in PathIndex(pages, s) <==> LastFiled(pages, s, key) >= 0
    ensures key in PathIndex(pages, s) ==> PathIndex(pages, s)[key] == s[LastFiled(pages, s, key)]
  {
    if |s| > 0 {
      var init := s[..|s| - 1];
      PathIndexSpec(pages, init, key);
      if !Filed(pages[s[|s| - 1]], key) {
        var i := LastFiled(pages, init, key);
        if i >= 0 {
          assert s[i] == init[i];
        }
      }
    }
  }

  /** One more page of `s` taken into the index. */
  lemma PathIndexStep(pages: map<PageId, Page>, s: seq<PageId>, i: nat)
    requires forall k | 0 <= k < |s| :: s[k] in pages
    requires i < |s|
    ensures PathIndex(pages, s[..i + 1]) ==
      if pages[s[i]].external then PathIndex(pages, s[..i]) else PathIndex(pages, s[..i])[PathKey(pages[s[i]]) := s[i]]
  {
    assert s[..i + 1][..i] == s[..i];
  }

  /** `MapPages`: files every internal page of the walk from `root` under its path. */
  method MapPages(pages: map<PageId, Page>, root: PageId) returns (m: map<string, PageId>, ghost order: seq<PageId>)
    requires Tree(pages) && root in pages
    ensures BreadthFirst(pages, root, order) && Distinct(order)
    ensures m == PathIndex(pages, order)
  {
    var walk := Walk(pages, root);
    order := walk;
    m := map[];
    for i := 0 to |walk|
      invariant m == PathIndex(pages, walk[..i])
    {
      PathIndexStep(pages, walk, i);
      var current := walk[i];
      if pages[current].external {
        continue;
      }
      var path := pages[current].url.path;
      if path == "" {
        path := "/";
      }
      m := m[path := current];
    }
    assert walk[..|walk|] == walk;
  }

  /** Each value of `MapPages` is an internal page of the walk filed under its key, and no later page of the walk is. */
  lemma MapPagesKeys(pages: map<PageId, Page>, order: seq<PageId>, key: string)
    requires forall k | 0 <= k < |order| :: order[k] in pages
    requires key in PathIndex(pages, order)
    ensures PathIndex(pages, order)[key] in order
    ensures !pages[PathIndex(pages, order)[key]].external
    ensures PathKey(pages[PathIndex(pages, order)[key]]) == key
  {
    PathIndexSpec(pages, order, key);
  }

  /** A key is missing from `MapPages` exactly when no internal page of the walk has that path. */
  lemma MapPagesMissing(pages: map<PageId, Page>, order: seq<PageId>, key: string)
    requires forall k | 0 <= k < |order| :: order[k] in pages
    ensures key !in PathIndex(pages, order) <==> forall j | 0 <= j < |order| :: !Filed(pages[order[j]], key)
  {
    PathIndexSpec(pages, order, key);
  }
}
