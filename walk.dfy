/** The work loop of `trace_lineage` in XMLify/fixed_lineage_maker.py, over
    an arbitrary source test, successor rule and record: a breadth-first
    queue of entries with a set of visited keys, where an entry deeper than
    the bound is dropped, an entry whose key was seen is skipped, an entry
    that stops emits its record, and any other entry enqueues its
    successors. */
module Walks {
  import opened FieldModel
  import Seqs

  /** The fixed parameters of one walk. `ok` is a property of the start
      that the successor rule keeps; every entry with it lies at an
      (instance, field) of the finite `pairs`, which bounds the keys. */
  datatype WalkSpec<R> = WalkSpec(
    init: Pending, maxDepth: int, stops: Pending -> bool, next: Pending -> seq<Pending>,
    record: Pending -> R, keyOf: (string, string, nat) -> string,
    ok: Pending -> bool, pairs: set<(string, string)>)

  function KeyOf<R>(sp: WalkSpec<R>, e: Pending): (r: string) {
    sp.keyOf(e.instance, e.field, e.depth)
  }

  /** No two entries share a key. */
  predicate UniqueKeys(xs: seq<Pending>, keyOf: (string, string, nat) -> string) {
    forall a, b | 0 <= a < b < |xs| ::
      keyOf(xs[a].instance, xs[a].field, xs[a].depth) != keyOf(xs[b].instance, xs[b].field, xs[b].depth)
  }

  /** Every key the walk can take. */
  ghost function Space<R>(sp: WalkSpec<R>): (r: set<string>) {
    set pr, d: nat | pr in sp.pairs && d <= sp.maxDepth :: sp.keyOf(pr.0, pr.1, d)
  }

  /** What the walk needs of its parameters. */
  ghost predicate Closed<R>(sp: WalkSpec<R>) {
    sp.ok(sp.init) && sp.init.depth == 0
    && (forall e | sp.ok(e) :: (e.instance, e.field) in sp.pairs)
    && (forall e | sp.ok(e) && !sp.stops(e) :: forall s | s in sp.next(e) :: sp.ok(s))
  }

  /** No entry of the start's instance stops, and the rule never leaves it. */
  ghost predicate Stays<R>(sp: WalkSpec<R>) {
    forall e | sp.ok(e) && e.instance == sp.init.instance ::
      !sp.stops(e) && forall s | s in sp.next(e) :: s.instance == sp.init.instance
  }

  /** The state the loop keeps. */
  ghost predicate WalkInv<R>(sp: WalkSpec<R>, queue: seq<Pending>, visited: set<string>,
                             records: seq<R>, emitted: seq<Pending>, expanded: seq<Pending>) {
    (forall q | q in queue :: sp.ok(q))
    && visited <= Space(sp)
    && (forall e | e in expanded :: KeyOf(sp, e) in visited)
    && UniqueKeys(expanded, sp.keyOf)
    && (forall e | e in expanded :: sp.ok(e) && e.depth <= sp.maxDepth)
    && |records| == |emitted|
    && (forall k | 0 <= k < |emitted| :: records[k] == sp.record(emitted[k]) && sp.stops(emitted[k]))
    && (forall x | x in emitted :: x in expanded)
    && (sp.maxDepth < 0 ==> records == [])
    && (sp.stops(sp.init) ==> (queue == [sp.init] && records == [] && visited == {})
                              || (queue == [] && (sp.maxDepth >= 0 ==> records == [sp.record(sp.init)])))
    && (!sp.stops(sp.init) && sp.next(sp.init) == [] ==> records == [] && forall q | q in queue :: q == sp.init)
    && (Stays(sp) ==> records == [] && forall q | q in queue :: q.instance == sp.init.instance)
  }

  /** What the walk promises: every record is the record of an expanded
      entry that stops, and every expanded entry that stops gives one;
      every expanded entry keeps `ok` and lies within the bound; no key is
      expanded twice; the start is expanded unless the bound is negative,
      and then nothing is recorded; every successor within the bound of an
      expanded entry that does not stop has its key taken, by itself or by
      an entry with the same key; a start that stops gives its own record
      alone; a start that neither stops nor has successors gives nothing,
      and so does a start whose instance the rule never leaves without any
      entry of it stopping. Beyond these, the run is fixed: the expanded
      entries are exactly `Dequeued` from the start, in breadth-first order
      and with the first-dequeued entry of each key; the emitted entries
      are the ones among them that stop, in that order, one per key. */
  ghost predicate WalkPost<R>(sp: WalkSpec<R>, records: seq<R>, emitted: seq<Pending>, expanded: seq<Pending>) {
    WalkFacts(sp, records, emitted, expanded)
    && BfsRun(sp, emitted, expanded)
    && UniqueKeys(emitted, sp.keyOf)
  }

  /** The clauses of `WalkPost` that do not fix the order. */
  ghost predicate WalkFacts<R>(sp: WalkSpec<R>, records: seq<R>, emitted: seq<Pending>, expanded: seq<Pending>) {
    |records| == |emitted|
    && (forall k | 0 <= k < |emitted| :: records[k] == sp.record(emitted[k]) && sp.stops(emitted[k]))
    && (forall x | x in emitted :: x in expanded)
    && (forall e | e in expanded :: sp.ok(e) && e.depth <= sp.maxDepth)
    && UniqueKeys(expanded, sp.keyOf)
    && (sp.maxDepth < 0 ==> records == [])
    && (sp.stops(sp.init) && sp.maxDepth >= 0 ==> records == [sp.record(sp.init)])
    && (!sp.stops(sp.init) && sp.next(sp.init) == [] ==> records == [])
    && (Stays(sp) ==> records == [])
    && (forall e | e in expanded && sp.stops(e) :: e in emitted)
    && (sp.maxDepth >= 0 ==> sp.init in expanded)
    && (forall e, s | e in expanded && !sp.stops(e) && s in sp.next(e) && s.depth <= sp.maxDepth ::
          KeyOf(sp, s) in TakenKeys(sp, expanded))
  }

  /** The entries the loop takes, in the order it dequeues them, starting
      from `queue` with the keys `visited` already seen. An entry deeper
      than the bound, or whose key was seen, is dropped. Any other entry is
      taken and its key marked seen; unless it stops, its successors join
      the back of the queue. So, of the entries that share a key, the first
      one dequeued is the one taken. */
  ghost function Dequeued<R>(sp: WalkSpec<R>, queue: seq<Pending>, visited: set<string>): (r: seq<Pending>)
    requires Closed(sp) && visited <= Space(sp) && forall q | q in queue :: sp.ok(q)
    ensures forall x | x in r :: sp.ok(x) && x.depth <= sp.maxDepth && KeyOf(sp, x) !in visited
    decreases |Space(sp) - visited|, |queue|
  {
    if |queue| == 0 then []
    else
      var e := queue[0];
      assert e in queue;
      assert forall q | q in queue[1..] :: q in queue;
      if e.depth > sp.maxDepth || KeyOf(sp, e) in visited then
        Dequeued(sp, queue[1..], visited)
      else
        var key := KeyOf(sp, e);
        var rest := queue[1..] + (if sp.stops(e) then [] else sp.next(e));
        assert key in Space(sp) by {
          assert sp.keyOf(e.instance, e.field, e.depth) in Space(sp);
        }
        Shrinks(Space(sp), visited, key);
        [e] + Dequeued(sp, rest, visited + {key})
  }

  /** The walk took, in order, exactly the entries `Dequeued` lists from
      the start, and emitted exactly those of them that stop. */
  ghost predicate BfsRun<R>(sp: WalkSpec<R>, emitted: seq<Pending>, expanded: seq<Pending>) {
    Closed(sp) && expanded == Dequeued(sp, [sp.init], {}) && emitted == Seqs.Where(expanded, sp.stops)
  }

  /** The loop's progress through `Dequeued`: what it took so far, followed
      by what it will take from the current queue, is the whole run. */
  ghost predicate RunInv<R>(sp: WalkSpec<R>, queue: seq<Pending>, visited: set<string>,
                            emitted: seq<Pending>, expanded: seq<Pending>) {
    Closed(sp) && visited <= Space(sp) && (forall q | q in queue :: sp.ok(q))
    && expanded + Dequeued(sp, queue, visited) == Dequeued(sp, [sp.init], {})
    && emitted == Seqs.Where(expanded, sp.stops)
  }

  lemma RunInit<R>(sp: WalkSpec<R>)
    requires Closed(sp)
    ensures RunInv(sp, [sp.init], {}, [], [])
  {
    assert [] + Dequeued(sp, [sp.init], {}) == Dequeued(sp, [sp.init], {});
  }

  /** A dropped head is not taken. */
  lemma RunSkip<R>(sp: WalkSpec<R>, queue: seq<Pending>, visited: set<string>,
                   emitted: seq<Pending>, expanded: seq<Pending>)
    requires RunInv(sp, queue, visited, emitted, expanded) && |queue| > 0
    requires queue[0].depth > sp.maxDepth || KeyOf(sp, queue[0]) in visited
    ensures RunInv(sp, queue[1..], visited, emitted, expanded)
  {
    assert forall q | q in queue[1..] :: q in queue;
  }

  /** A taken head is the next entry of the run; it is emitted when it stops. */
  lemma RunTake<R>(sp: WalkSpec<R>, queue: seq<Pending>, visited: set<string>,
                   emitted: seq<Pending>, expanded: seq<Pending>)
    requires RunInv(sp, queue, visited, emitted, expanded) && |queue| > 0
    requires queue[0].depth <= sp.maxDepth && KeyOf(sp, queue[0]) !in visited
    ensures var e := queue[0];
      RunInv(sp, queue[1..] + (if sp.stops(e) then [] else sp.next(e)), visited + {KeyOf(sp, e)},
             emitted + (if sp.stops(e) then [e] else []), expanded + [e])
  {
    var e := queue[0];
    var rest := queue[1..] + (if sp.stops(e) then [] else sp.next(e));
    assert e in queue;
    assert forall q | q in queue[1..] :: q in queue;
    assert sp.keyOf(e.instance, e.field, e.depth) in Space(sp);
    assert Dequeued(sp, queue, visited) == [e] + Dequeued(sp, rest, visited + {KeyOf(sp, e)});
    Seqs.ConcatAssoc(expanded, [e], Dequeued(sp, rest, visited + {KeyOf(sp, e)}));
    assert (expanded + [e])[..|expanded|] == expanded;
  }

  lemma RunEmit<R>(sp: WalkSpec<R>, queue: seq<Pending>, visited: set<string>,
                   emitted: seq<Pending>, expanded: seq<Pending>)
    requires RunInv(sp, queue, visited, emitted, expanded) && |queue| > 0
    requires queue[0].depth <= sp.maxDepth && KeyOf(sp, queue[0]) !in visited && sp.stops(queue[0])
    ensures RunInv(sp, queue[1..], visited + {KeyOf(sp, queue[0])}, emitted + [queue[0]], expanded + [queue[0]])
  {
    RunTake(sp, queue, visited, emitted, expanded);
    assert queue[1..] + [] == queue[1..];
  }

  lemma RunExpand<R>(sp: WalkSpec<R>, queue: seq<Pending>, visited: set<string>,
                     emitted: seq<Pending>, expanded: seq<Pending>)
    requires RunInv(sp, queue, visited, emitted, expanded) && |queue| > 0
    requires queue[0].depth <= sp.maxDepth && KeyOf(sp, queue[0]) !in visited && !sp.stops(queue[0])
    ensures RunInv(sp, queue[1..] + sp.next(queue[0]), visited + {KeyOf(sp, queue[0])}, emitted, expanded + [queue[0]])
  {
    RunTake(sp, queue, visited, emitted, expanded);
    assert emitted + [] == emitted;
  }

  /** An empty queue ends the run. */
  lemma RunDone<R>(sp: WalkSpec<R>, visited: set<string>, emitted: seq<Pending>, expanded: seq<Pending>)
    requires RunInv(sp, [], visited, emitted, expanded)
    ensures BfsRun(sp, emitted, expanded)
  {
    assert expanded + [] == expanded;
  }

  /** Keeping some of a list whose keys are unique keeps them unique: one
      record per key. */
  lemma WhereUniqueKeys<R>(sp: WalkSpec<R>, xs: seq<Pending>)
    requires UniqueKeys(xs, sp.keyOf)
    ensures UniqueKeys(Seqs.Where(xs, sp.stops), sp.keyOf)
  {
    Seqs.WhereSpec(xs, sp.stops);
    var r := Seqs.Where(xs, sp.stops);
    var idx := Seqs.KeptAt(xs, sp.stops);
    forall a, b | 0 <= a < b < |r|
      ensures sp.keyOf(r[a].instance, r[a].field, r[a].depth) != sp.keyOf(r[b].instance, r[b].field, r[b].depth)
    {
      assert r[a] == xs[idx[a]] && r[b] == xs[idx[b]] && idx[a] < idx[b] < |xs|;
    }
  }

  /** The keys of some entries. */
  ghost function TakenKeys<R>(sp: WalkSpec<R>, xs: seq<Pending>): (r: set<string>) {
    set x | x in xs :: KeyOf(sp, x)
  }

  lemma KeysAppend<R>(sp: WalkSpec<R>, xs: seq<Pending>, e: Pending)
    ensures TakenKeys(sp, xs + [e]) == TakenKeys(sp, xs) + {KeyOf(sp, e)}
  {
    assert forall x | x in xs + [e] :: x in xs || x == e;
  }

  /** What the loop still owes: the visited keys are those of the expanded
      entries, every expanded entry that stops was emitted, the start is
      the first entry expanded, and every successor within the bound of an
      expanded entry that does not stop is still queued or has its key
      taken. */
  ghost predicate Owed<R>(sp: WalkSpec<R>, queue: seq<Pending>, visited: set<string>,
                          emitted: seq<Pending>, expanded: seq<Pending>) {
    visited == TakenKeys(sp, expanded)
    && (forall e | e in expanded && sp.stops(e) :: e in emitted)
    && (sp.maxDepth >= 0 ==> (expanded == [] && queue == [sp.init]) || (|expanded| > 0 && expanded[0] == sp.init))
    && (forall e, s | e in expanded && !sp.stops(e) && s in sp.next(e) && s.depth <= sp.maxDepth ::
          s in queue || KeyOf(sp, s) in visited)
  }

  lemma InTail<T>(q: seq<T>, x: T)
    requires x in q && x != q[0]
    ensures x in q[1..]
  {
    var i :| 0 <= i < |q| && q[i] == x;
    assert q[1..][i - 1] == x;
  }

  lemma OwedInit<R>(sp: WalkSpec<R>)
    ensures Owed(sp, [sp.init], {}, [], [])
  {
    assert TakenKeys(sp, []) == {};
  }

  /** Dropping a head that is too deep or whose key was taken owes nothing new. */
  lemma OwedPop<R>(sp: WalkSpec<R>, queue: seq<Pending>, visited: set<string>,
                   emitted: seq<Pending>, expanded: seq<Pending>)
    requires Closed(sp) && Owed(sp, queue, visited, emitted, expanded) && |queue| > 0
    requires queue[0].depth > sp.maxDepth || KeyOf(sp, queue[0]) in visited
    ensures Owed(sp, queue[1..], visited, emitted, expanded)
  {
    forall e, s | e in expanded && !sp.stops(e) && s in sp.next(e) && s.depth <= sp.maxDepth
      ensures s in queue[1..] || KeyOf(sp, s) in visited
    {
      if s in queue && s != queue[0] {
        InTail(queue, s);
      }
    }
  }

  /** Emitting the head settles what was owed for it. */
  lemma OwedEmit<R>(sp: WalkSpec<R>, queue: seq<Pending>, visited: set<string>,
                    emitted: seq<Pending>, expanded: seq<Pending>)
    requires Owed(sp, queue, visited, emitted, expanded) && |queue| > 0 && sp.stops(queue[0])
    ensures Owed(sp, queue[1..], visited + {KeyOf(sp, queue[0])}, emitted + [queue[0]], expanded + [queue[0]])
  {
    var e := queue[0];
    KeysAppend(sp, expanded, e);
    forall x, s | x in expanded + [e] && !sp.stops(x) && s in sp.next(x) && s.depth <= sp.maxDepth
      ensures s in queue[1..] || KeyOf(sp, s) in visited + {KeyOf(sp, e)}
    {
      if s in queue && s != e {
        InTail(queue, s);
      }
    }
  }

  /** Expanding the head owes its successors, which are queued. */
  lemma OwedExpand<R>(sp: WalkSpec<R>, queue: seq<Pending>, visited: set<string>,
                      emitted: seq<Pending>, expanded: seq<Pending>)
    requires Owed(sp, queue, visited, emitted, expanded) && |queue| > 0 && !sp.stops(queue[0])
    ensures Owed(sp, queue[1..] + sp.next(queue[0]), visited + {KeyOf(sp, queue[0])}, emitted, expanded + [queue[0]])
  {
    var e := queue[0];
    KeysAppend(sp, expanded, e);
    forall x, s | x in expanded + [e] && !sp.stops(x) && s in sp.next(x) && s.depth <= sp.maxDepth
      ensures s in queue[1..] + sp.next(e) || KeyOf(sp, s) in visited + {KeyOf(sp, e)}
    {
      if x != e && s in queue && s != e {
        InTail(queue, s);
      }
    }
  }

  /** Entries with one key, at pairs of the key space, are alike to the
      walk: they stop alike, lie at one level, and enqueue successors of
      the same keys. */
  ghost predicate Coherent<R>(sp: WalkSpec<R>) {
    forall a: Pending, b: Pending | (a.instance, a.field) in sp.pairs && (b.instance, b.field) in sp.pairs && KeyOf(sp, a) == KeyOf(sp, b) ::
      sp.stops(a) == sp.stops(b) && a.depth == b.depth && TakenKeys(sp, sp.next(a)) <= TakenKeys(sp, sp.next(b))
  }

  /** A path of the rules from the start, through entries that do not stop,
      within the bound. */
  ghost predicate Chain<R>(sp: WalkSpec<R>, c: seq<Pending>) {
    |c| > 0 && c[0] == sp.init
    && (forall i | 0 <= i < |c| :: c[i].depth <= sp.maxDepth)
    && (forall i | 0 <= i < |c| - 1 :: !sp.stops(c[i]) && c[i + 1] in sp.next(c[i]))
  }

  /** One more link of a chain keeps its key expanded. */
  lemma ChainLink<R>(sp: WalkSpec<R>, records: seq<R>, emitted: seq<Pending>, expanded: seq<Pending>,
                     prev: Pending, last: Pending)
    requires Closed(sp) && Coherent(sp) && WalkFacts(sp, records, emitted, expanded)
    requires sp.ok(prev) && KeyOf(sp, prev) in TakenKeys(sp, expanded) && !sp.stops(prev)
    requires last in sp.next(prev) && last.depth <= sp.maxDepth
    ensures sp.ok(last) && KeyOf(sp, last) in TakenKeys(sp, expanded)
  {
    var x :| x in expanded && KeyOf(sp, x) == KeyOf(sp, prev);
    assert sp.ok(x) && (x.instance, x.field) in sp.pairs && (prev.instance, prev.field) in sp.pairs;
    assert KeyOf(sp, last) in TakenKeys(sp, sp.next(prev));
    var t :| t in sp.next(x) && KeyOf(sp, t) == KeyOf(sp, last);
    assert sp.ok(t) && sp.ok(last);
    assert (t.instance, t.field) in sp.pairs && (last.instance, last.field) in sp.pairs;
  }

  /** An expanded key of an entry that stops is an emitted key. */
  lemma StopsEmitted<R>(sp: WalkSpec<R>, records: seq<R>, emitted: seq<Pending>, expanded: seq<Pending>, e: Pending)
    requires Closed(sp) && Coherent(sp) && WalkFacts(sp, records, emitted, expanded)
    requires sp.ok(e) && KeyOf(sp, e) in TakenKeys(sp, expanded) && sp.stops(e)
    ensures exists x | x in emitted :: KeyOf(sp, x) == KeyOf(sp, e)
  {
    var y :| y in expanded && KeyOf(sp, y) == KeyOf(sp, e);
    assert sp.ok(y) && (y.instance, y.field) in sp.pairs && (e.instance, e.field) in sp.pairs;
    assert y in emitted;
  }

  /** Completeness: when entries of one key are alike, the end of every
      chain has its key expanded, and one that stops has its key emitted. */
  lemma {:induction false} ChainReached<R>(sp: WalkSpec<R>, records: seq<R>, emitted: seq<Pending>,
                                           expanded: seq<Pending>, c: seq<Pending>)
    requires Closed(sp) && Coherent(sp) && WalkFacts(sp, records, emitted, expanded) && Chain(sp, c)
    ensures sp.ok(c[|c| - 1])
    ensures KeyOf(sp, c[|c| - 1]) in TakenKeys(sp, expanded)
    ensures sp.stops(c[|c| - 1]) ==> exists x | x in emitted :: KeyOf(sp, x) == KeyOf(sp, c[|c| - 1])
  {
    var last := c[|c| - 1];
    if |c| > 1 {
      var pre := c[..|c| - 1];
      assert forall i | 0 <= i < |pre| :: pre[i] == c[i];
      assert Chain(sp, pre);
      ChainReached(sp, records, emitted, expanded, pre);
      ChainLink(sp, records, emitted, expanded, pre[|pre| - 1], last);
    }
    if sp.stops(last) {
      StopsEmitted(sp, records, emitted, expanded, last);
    }
  }

  lemma InitInv<R>(sp: WalkSpec<R>)
    requires Closed(sp)
    ensures WalkInv(sp, [sp.init], {}, [], [], [])
  {
  }

  /** Dropping the head: too deep, or its key was seen. */
  lemma PopStep<R>(sp: WalkSpec<R>, queue: seq<Pending>, visited: set<string>,
                   records: seq<R>, emitted: seq<Pending>, expanded: seq<Pending>)
    requires Closed(sp) && WalkInv(sp, queue, visited, records, emitted, expanded) && |queue| > 0
    requires queue[0].depth > sp.maxDepth || KeyOf(sp, queue[0]) in visited
    ensures WalkInv(sp, queue[1..], visited, records, emitted, expanded)
  {
    assert queue[0] in queue;
    assert forall q | q in queue[1..] :: q in queue;
  }

  /** Taking the head's key keeps the keys unique and within the space. */
  lemma TakeKey<R>(sp: WalkSpec<R>, visited: set<string>, expanded: seq<Pending>, e: Pending)
    requires visited <= Space(sp) && (forall x | x in expanded :: KeyOf(sp, x) in visited)
    requires UniqueKeys(expanded, sp.keyOf)
    requires (e.instance, e.field) in sp.pairs && e.depth <= sp.maxDepth && KeyOf(sp, e) !in visited
    ensures KeyOf(sp, e) in Space(sp)
    ensures visited + {KeyOf(sp, e)} <= Space(sp)
    ensures forall x | x in expanded + [e] :: KeyOf(sp, x) in visited + {KeyOf(sp, e)}
    ensures UniqueKeys(expanded + [e], sp.keyOf)
  {
    var pr := (e.instance, e.field);
    assert sp.keyOf(pr.0, pr.1, e.depth) in Space(sp);
    var ys := expanded + [e];
    forall a, b | 0 <= a < b < |ys|
      ensures sp.keyOf(ys[a].instance, ys[a].field, ys[a].depth) != sp.keyOf(ys[b].instance, ys[b].field, ys[b].depth)
    {
      if b == |expanded| {
        assert expanded[a] in expanded;
      }
    }
  }

  /** The head stops: its record is emitted. */
  lemma EmitStep<R>(sp: WalkSpec<R>, queue: seq<Pending>, visited: set<string>,
                    records: seq<R>, emitted: seq<Pending>, expanded: seq<Pending>)
    requires Closed(sp) && WalkInv(sp, queue, visited, records, emitted, expanded) && |queue| > 0
    requires queue[0].depth <= sp.maxDepth && KeyOf(sp, queue[0]) !in visited && sp.stops(queue[0])
    ensures KeyOf(sp, queue[0]) in Space(sp)
    ensures WalkInv(sp, queue[1..], visited + {KeyOf(sp, queue[0])}, records + [sp.record(queue[0])],
                    emitted + [queue[0]], expanded + [queue[0]])
  {
    var e := queue[0];
    assert e in queue;
    assert forall q | q in queue[1..] :: q in queue;
    TakeKey(sp, visited, expanded, e);
    assert forall x | x in emitted + [e] :: x in emitted || x == e;
  }

  /** The head does not stop: its successors are enqueued. */
  lemma ExpandStep<R>(sp: WalkSpec<R>, queue: seq<Pending>, visited: set<string>,
                      records: seq<R>, emitted: seq<Pending>, expanded: seq<Pending>)
    requires Closed(sp) && WalkInv(sp, queue, visited, records, emitted, expanded) && |queue| > 0
    requires queue[0].depth <= sp.maxDepth && KeyOf(sp, queue[0]) !in visited && !sp.stops(queue[0])
    ensures KeyOf(sp, queue[0]) in Space(sp)
    ensures WalkInv(sp, queue[1..] + sp.next(queue[0]), visited + {KeyOf(sp, queue[0])}, records,
                    emitted, expanded + [queue[0]])
  {
    var e := queue[0];
    assert e in queue;
    assert forall q | q in queue[1..] + sp.next(e) :: q in queue[1..] || q in sp.next(e);
    assert forall q | q in queue[1..] :: q in queue;
    TakeKey(sp, visited, expanded, e);
  }

  /** A new key shrinks what is left of the key space. */
  lemma Shrinks<T>(space: set<T>, seen: set<T>, k: T)
    requires k in space && k !in seen
    ensures |space - (seen + {k})| < |space - seen|
  {
    assert space - seen == (space - (seen + {k})) + {k};
  }

  /** Everything the loop keeps. */
  ghost predicate Loop<R>(sp: WalkSpec<R>, queue: seq<Pending>, visited: set<string>,
                          records: seq<R>, emitted: seq<Pending>, expanded: seq<Pending>) {
    WalkInv(sp, queue, visited, records, emitted, expanded)
    && Owed(sp, queue, visited, emitted, expanded)
    && RunInv(sp, queue, visited, emitted, expanded)
  }

  lemma LoopInit<R>(sp: WalkSpec<R>)
    requires Closed(sp)
    ensures Loop(sp, [sp.init], {}, [], [], [])
  {
    InitInv(sp);
    OwedInit(sp);
    RunInit(sp);
  }

  lemma LoopSkip<R>(sp: WalkSpec<R>, queue: seq<Pending>, visited: set<string>,
                    records: seq<R>, emitted: seq<Pending>, expanded: seq<Pending>)
    requires Closed(sp) && Loop(sp, queue, visited, records, emitted, expanded) && |queue| > 0
    requires queue[0].depth > sp.maxDepth || KeyOf(sp, queue[0]) in visited
    ensures Loop(sp, queue[1..], visited, records, emitted, expanded)
  {
    PopStep(sp, queue, visited, records, emitted, expanded);
    OwedPop(sp, queue, visited, emitted, expanded);
    RunSkip(sp, queue, visited, emitted, expanded);
  }

  lemma LoopEmit<R>(sp: WalkSpec<R>, queue: seq<Pending>, visited: set<string>,
                    records: seq<R>, emitted: seq<Pending>, expanded: seq<Pending>)
    requires Closed(sp) && Loop(sp, queue, visited, records, emitted, expanded) && |queue| > 0
    requires queue[0].depth <= sp.maxDepth && KeyOf(sp, queue[0]) !in visited && sp.stops(queue[0])
    ensures KeyOf(sp, queue[0]) in Space(sp)
    ensures Loop(sp, queue[1..], visited + {KeyOf(sp, queue[0])}, records + [sp.record(queue[0])],
                 emitted + [queue[0]], expanded + [queue[0]])
  {
    EmitStep(sp, queue, visited, records, emitted, expanded);
    OwedEmit(sp, queue, visited, emitted, expanded);
    RunEmit(sp, queue, visited, emitted, expanded);
  }

  lemma LoopExpand<R>(sp: WalkSpec<R>, queue: seq<Pending>, visited: set<string>,
                      records: seq<R>, emitted: seq<Pending>, expanded: seq<Pending>)
    requires Closed(sp) && Loop(sp, queue, visited, records, emitted, expanded) && |queue| > 0
    requires queue[0].depth <= sp.maxDepth && KeyOf(sp, queue[0]) !in visited && !sp.stops(queue[0])
    ensures KeyOf(sp, queue[0]) in Space(sp)
    ensures Loop(sp, queue[1..] + sp.next(queue[0]), visited + {KeyOf(sp, queue[0])}, records,
                 emitted, expanded + [queue[0]])
  {
    ExpandStep(sp, queue, visited, records, emitted, expanded);
    OwedExpand(sp, queue, visited, emitted, expanded);
    RunExpand(sp, queue, visited, emitted, expanded);
  }

  /** An empty queue gives what the walk promises. */
  lemma LoopDone<R>(sp: WalkSpec<R>, visited: set<string>, records: seq<R>, emitted: seq<Pending>, expanded: seq<Pending>)
    requires Closed(sp) && Loop(sp, [], visited, records, emitted, expanded)
    ensures WalkPost(sp, records, emitted, expanded)
  {
    RunDone(sp, visited, emitted, expanded);
    WhereUniqueKeys(sp, expanded);
  }

  /** The work loop. `emitted` holds the entries that gave the records and
      `expanded` every entry whose key was taken. */
  method Walk<R>(init: Pending, maxDepth: int, stops: Pending -> bool, next: Pending -> seq<Pending>,
                 record: Pending -> R, keyOf: (string, string, nat) -> string,
                 ghost ok: Pending -> bool, ghost pairs: set<(string, string)>)
    returns (records: seq<R>, ghost emitted: seq<Pending>, ghost expanded: seq<Pending>)
    requires Closed(WalkSpec(init, maxDepth, stops, next, record, keyOf, ok, pairs))
    ensures WalkPost(WalkSpec(init, maxDepth, stops, next, record, keyOf, ok, pairs), records, emitted, expanded)
  {
    ghost var sp := WalkSpec(init, maxDepth, stops, next, record, keyOf, ok, pairs);
    var queue := [init];
    var visited: set<string> := {};
    records := [];
    emitted := [];
    expanded := [];
    LoopInit(sp);
    while |queue| > 0
      invariant Loop(sp, queue, visited, records, emitted, expanded)
      decreases |Space(sp) - visited|, |queue|
    {
      var e := queue[0];
      if e.depth > maxDepth {
        LoopSkip(sp, queue, visited, records, emitted, expanded);
        queue := queue[1..];
        continue;
      }
      var key := keyOf(e.instance, e.field, e.depth);
      if key in visited {
        LoopSkip(sp, queue, visited, records, emitted, expanded);
        queue := queue[1..];
        continue;
      }
      if stops(e) {
        LoopEmit(sp, queue, visited, records, emitted, expanded);
        Shrinks(Space(sp), visited, key);
        queue := queue[1..];
        visited := visited + {key};
        expanded := expanded + [e];
        records := records + [record(e)];
        emitted := emitted + [e];
      } else {
        LoopExpand(sp, queue, visited, records, emitted, expanded);
        Shrinks(Space(sp), visited, key);
        queue := queue[1..] + next(e);
        visited := visited + {key};
        expanded := expanded + [e];
      }
    }
    LoopDone(sp, visited, records, emitted, expanded);
  }
}
