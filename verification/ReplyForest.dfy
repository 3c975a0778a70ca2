/**
  Reply threads (apiV2/src/reviews/review-thread.service.ts): rows with parent ids, and the forest
  assembled from one flat, sorted query.
*/
module ReplyForest {
  import opened Wrappers
  import opened Bytes
  import opened Search
  import opened Sorting

  /** `id` is a random key; `createdAt` is whatever the database's clock said. */
  datatype Reply = Reply(id: nat, review: Text, author: Text, text: Text, parent: Option<nat>, createdAt: int)

  datatype Error = NotFound | BadRequest

  /** Where the reply with this id is in the table. */
  function Find(table: seq<Reply>, id: nat): (r: Option<nat>)
    ensures r.Some? ==> r.value < |table| && table[r.value].id == id
    ensures r.None? ==> forall i :: 0 <= i < |table| ==> table[i].id != id
  {
    FindIndex(table, (reply: Reply) => reply.id == id)
  }

  datatype Call = Call(review: Text, author: Text, text: Text, parent: Option<nat>, id: nat, createdAt: int)

  /** `create`; `id` and `createdAt` are what the insert is given by the database. */
  function Create(reviews: set<Text>, table: seq<Reply>, call: Call): Result<seq<Reply>, Error> {
    if call.review !in reviews then Err(NotFound)
    else if call.parent.Some? && !ParentFits(table, call.parent.value, call.review) then Err(BadRequest)
    else Ok(table + [Reply(call.id, call.review, call.author, call.text, call.parent, call.createdAt)])
  }

  predicate ParentFits(table: seq<Reply>, parent: nat, review: Text) {
    Find(table, parent).Some? && table[Find(table, parent).value].review == review
  }

  /**
    A reply is added, as it was sent, exactly when its review is known and its parent, if any, is a reply of that
    same review.
  */
  lemma CreateExactly(reviews: set<Text>, table: seq<Reply>, call: Call)
    requires TableOk(table)
    ensures var fits := call.parent == None
                        || exists i :: 0 <= i < |table| && Some(table[i].id) == call.parent && table[i].review == call.review;
            Create(reviews, table, call)
            == if call.review !in reviews then Err(NotFound)
               else if !fits then Err(BadRequest)
               else Ok(table + [Reply(call.id, call.review, call.author, call.text, call.parent, call.createdAt)])
  {
    if call.parent.Some? {
      var found := Find(table, call.parent.value);
      if i :| 0 <= i < |table| && table[i].id == call.parent.value && table[i].review == call.review {
        assert table[found.value].id == table[i].id;
      }
    }
  }

  /** The table in insertion order after the calls, refused ones leaving it as it was. */
  function History(reviews: set<Text>, calls: seq<Call>): seq<Reply> {
    if calls == [] then []
    else
      var before := History(reviews, calls[..|calls| - 1]);
      match Create(reviews, before, calls[|calls| - 1]) case Ok(after) => after case Err(_) => before
  }

  ghost predicate FreshKeys(calls: seq<Call>) { forall i, j :: 0 <= i < j < |calls| ==> calls[i].id != calls[j].id }

  /** Each parent is an earlier reply of the same review. */
  ghost predicate TableOk(table: seq<Reply>) {
    && (forall i, j :: 0 <= i < j < |table| ==> table[i].id != table[j].id)
    && forall j :: 0 <= j < |table| && table[j].parent.Some? ==> HasParent(table, j)
  }

  ghost predicate HasParent(table: seq<Reply>, j: nat)
    requires j < |table| && table[j].parent.Some?
  {
    exists i :: 0 <= i < j && IsParent(table, i, j)
  }

  predicate IsParent(table: seq<Reply>, i: nat, j: nat)
    requires i < |table| && j < |table|
  {
    table[j].parent == Some(table[i].id) && table[i].review == table[j].review
  }

  lemma CreateKeepsTable(reviews: set<Text>, table: seq<Reply>, call: Call)
    requires TableOk(table) && Find(table, call.id).None? && Create(reviews, table, call).Ok?
    ensures TableOk(Create(reviews, table, call).value)
  {
    var after := Create(reviews, table, call).value;
    forall j | 0 <= j < |after| && after[j].parent.Some?
      ensures HasParent(after, j)
    {
      if j < |table| {
        assert HasParent(table, j);
        var i :| 0 <= i < j && IsParent(table, i, j);
        assert IsParent(after, i, j);
      } else {
        assert IsParent(after, Find(table, call.parent.value).value, j);
      }
    }
  }

  /** After any history of calls, parent links lead to earlier replies of the same review: no cycles. */
  lemma {:induction false} HistoryIsOk(reviews: set<Text>, calls: seq<Call>)
    requires FreshKeys(calls)
    ensures TableOk(History(reviews, calls))
    ensures forall i :: 0 <= i < |History(reviews, calls)| ==>
              exists j :: 0 <= j < |calls| && calls[j].id == History(reviews, calls)[i].id
  {
    if calls != [] {
      var front, before := calls[..|calls| - 1], History(reviews, calls[..|calls| - 1]);
      HistoryIsOk(reviews, front);
      var last := calls[|calls| - 1];
      assert forall i :: 0 <= i < |before| ==> before[i].id != last.id;
      if Create(reviews, before, last).Ok? { CreateKeepsTable(reviews, before, last); }
      forall i | 0 <= i < |History(reviews, calls)|
        ensures exists j :: 0 <= j < |calls| && calls[j].id == History(reviews, calls)[i].id
      {
        if i < |before| {
          var j :| 0 <= j < |front| && front[j].id == before[i].id;
          assert calls[j].id == before[i].id;
        } else {
          assert calls[|calls| - 1].id == last.id;
        }
      }
    }
  }

  // ---- the query ----------------------------------------------------------------------------

  /** What a row is sorted by, and where it is in the table. */
  datatype Key = Key(createdAt: int, id: nat, index: nat)

  predicate Earlier(a: Key, b: Key) {
    || a.createdAt < b.createdAt
    || (a.createdAt == b.createdAt && (a.id < b.id || (a.id == b.id && a.index <= b.index)))
  }

  function KeysOf(table: seq<Reply>, review: Text): seq<Key> {
    if table == [] then []
    else
      var n := |table| - 1;
      KeysOf(table[..n], review)
      + (if table[n].review == review then [Key(table[n].createdAt, table[n].id, n)] else [])
  }

  /** Indices of the review's replies by (createdAt, id). */
  function Listing(table: seq<Reply>, review: Text): seq<nat> {
    Map((k: Key) => k.index, Sort(KeysOf(table, review), Earlier))
  }

  /** Siblings, or any rows, in the order the query asks for. */
  ghost predicate InOrder(rows: seq<Reply>) {
    forall i, j :: 0 <= i < j < |rows| ==>
      rows[i].createdAt < rows[j].createdAt || (rows[i].createdAt == rows[j].createdAt && rows[i].id <= rows[j].id)
  }

  predicate AllIndices(table: seq<Reply>, order: seq<nat>) { forall i :: 0 <= i < |order| ==> order[i] < |table| }

  function RowsAt(table: seq<Reply>, order: seq<nat>): (r: seq<Reply>)
    requires AllIndices(table, order)
    ensures |r| == |order| && forall i :: 0 <= i < |order| ==> r[i] == table[order[i]]
  {
    if order == [] then [] else [table[order[0]]] + RowsAt(table, order[1..])
  }

  /** The key of one of the review's rows. */
  predicate IsKey(table: seq<Reply>, review: Text, k: Key) {
    k.index < |table| && table[k.index].review == review && k == KeyAt(table, k.index)
  }

  function KeyAt(table: seq<Reply>, n: nat): Key
    requires n < |table|
  {
    Key(table[n].createdAt, table[n].id, n)
  }

  lemma {:induction false} KeysAreRows(table: seq<Reply>, review: Text)
    ensures var keys := KeysOf(table, review);
            && (forall k :: k in keys ==> IsKey(table, review, k))
            && forall n :: 0 <= n < |table| && table[n].review == review ==> KeyAt(table, n) in keys
  {
    if table != [] {
      var front := table[..|table| - 1];
      KeysAreRows(front, review);
      forall k | k in KeysOf(front, review)
        ensures IsKey(table, review, k) && k.index < |front|
      {
        assert IsKey(front, review, k);
      }
      forall n | 0 <= n < |table| && table[n].review == review
        ensures KeyAt(table, n) in KeysOf(table, review)
      {
        if n < |front| { assert KeyAt(front, n) in KeysOf(front, review); }
      }
    }
  }

  lemma KeysTotalOrder()
    ensures TotalOrder(Earlier)
  {
  }

  ghost predicate Rising(keys: seq<Key>) { forall i, j :: 0 <= i < j < |keys| ==> keys[i].index < keys[j].index }

  lemma RisingPush(keys: seq<Key>, key: Key)
    requires Rising(keys) && forall i :: 0 <= i < |keys| ==> keys[i].index < key.index
    ensures Rising(keys + [key])
  {
  }

  lemma {:induction false} KeysRise(table: seq<Reply>, review: Text)
    ensures Rising(KeysOf(table, review))
  {
    if table != [] {
      var n := |table| - 1;
      var keys := KeysOf(table[..n], review);
      KeysRise(table[..n], review);
      KeysAreRows(table[..n], review);
      forall i | 0 <= i < |keys|
        ensures keys[i].index < n
      {
        assert IsKey(table[..n], review, keys[i]);
      }
      RisingPush(keys, Key(table[n].createdAt, table[n].id, n));
      assert keys + [] == keys;
    }
  }

  lemma RisingDiffer(keys: seq<Key>)
    requires Rising(keys)
    ensures Distinct(keys)
  {
    forall i, j | 0 <= i < j < |keys|
      ensures keys[i] != keys[j]
    {
      assert keys[i].index < keys[j].index;
    }
  }

  lemma SameElements(a: seq<Key>, b: seq<Key>)
    requires multiset(a) == multiset(b)
    ensures forall k :: k in a <==> k in b
  {
    forall k
      ensures k in a <==> k in b
    {
      assert k in a <==> k in multiset(a);
      assert k in b <==> k in multiset(b);
    }
  }

  ghost predicate Indexed(sorted: seq<Key>) { forall i, j :: 0 <= i < j < |sorted| ==> sorted[i].index != sorted[j].index }

  lemma IndexDetermines(table: seq<Reply>, review: Text, sorted: seq<Key>)
    requires forall k :: k in sorted ==> IsKey(table, review, k)
    requires Distinct(sorted)
    ensures Indexed(sorted)
  {
    forall i, j | 0 <= i < j < |sorted|
      ensures sorted[i].index != sorted[j].index
    {
      assert IsKey(table, review, sorted[i]) && IsKey(table, review, sorted[j]);
    }
  }

  lemma SortedKeys(table: seq<Reply>, review: Text)
    ensures var sorted := Sort(KeysOf(table, review), Earlier);
            && Sorted(sorted, Earlier) && Indexed(sorted)
            && (forall k :: k in sorted ==> IsKey(table, review, k))
            && forall n :: 0 <= n < |table| && table[n].review == review ==> KeyAt(table, n) in sorted
  {
    var keys := KeysOf(table, review);
    var sorted := Sort(keys, Earlier);
    KeysAreRows(table, review);
    KeysTotalOrder();
    SortSorts(keys, Earlier);
    SameElements(keys, sorted);
    KeysRise(table, review);
    RisingDiffer(keys);
    DistinctStays(keys, sorted);
    IndexDetermines(table, review, sorted);
  }

  lemma ListingIndices(table: seq<Reply>, review: Text)
    ensures var sorted, order := Sort(KeysOf(table, review), Earlier), Listing(table, review);
            && |order| == |sorted| && AllIndices(table, order) && Distinct(order)
            && forall i :: 0 <= i < |order| ==>
                 order[i] == sorted[i].index && table[order[i]].review == review && sorted[i] == KeyAt(table, order[i])
  {
    var sorted, order := Sort(KeysOf(table, review), Earlier), Listing(table, review);
    SortedKeys(table, review);
    forall i | 0 <= i < |order|
      ensures order[i] == sorted[i].index && IsKey(table, review, sorted[i])
    {
      assert sorted[i] in sorted;
    }
  }

  /** The listing is the review's replies, each once, sorted. */
  lemma ListingExact(table: seq<Reply>, review: Text)
    ensures var order := Listing(table, review);
            && AllIndices(table, order) && Distinct(order)
            && (forall n: nat :: n in order <==> n < |table| && table[n].review == review)
            && InOrder(RowsAt(table, order))
  {
    ListingIndices(table, review);
    SortedKeys(table, review);
    var order := Listing(table, review);
    forall n: nat | n < |table| && table[n].review == review
      ensures n in order
    {
      var sorted := Sort(KeysOf(table, review), Earlier);
      var i :| 0 <= i < |sorted| && sorted[i] == KeyAt(table, n);
      assert order[i] == n;
    }
    ListingSorted(table, review, order);
  }

  lemma ListingSorted(table: seq<Reply>, review: Text, order: seq<nat>)
    requires order == Listing(table, review) && AllIndices(table, order)
    ensures InOrder(RowsAt(table, order))
  {
    ListingIndices(table, review);
    SortedKeys(table, review);
    var sorted, rows := Sort(KeysOf(table, review), Earlier), RowsAt(table, order);
    forall i, j | 0 <= i < j < |rows|
      ensures rows[i].createdAt < rows[j].createdAt || (rows[i].createdAt == rows[j].createdAt && rows[i].id <= rows[j].id)
    {
      assert Earlier(sorted[i], sorted[j]);
      assert sorted[i] == KeyAt(table, order[i]) && sorted[j] == KeyAt(table, order[j]);
    }
  }

  // ---- the forest ---------------------------------------------------------------------------

  datatype Tree = Node(reply: Reply, children: seq<Tree>)

  /** The listed replies whose parent is row `i`, in listed order. */
  function ChildrenOf(table: seq<Reply>, order: seq<nat>, i: nat): (r: seq<nat>)
    requires AllIndices(table, order) && i < |table|
    ensures AllIndices(table, r)
    ensures forall c :: c in r <==> c in order && table[c].parent == Some(table[i].id)
  {
    if order == [] then []
    else (if table[order[0]].parent == Some(table[i].id) then [order[0]] else []) + ChildrenOf(table, order[1..], i)
  }

  predicate Listed(table: seq<Reply>, order: seq<nat>, id: nat)
    requires AllIndices(table, order)
  {
    exists m :: 0 <= m < |order| && table[order[m]].id == id
  }

  /** The listed replies without a listed parent, out of `part`. */
  function RootsOf(table: seq<Reply>, order: seq<nat>, part: seq<nat>): (r: seq<nat>)
    requires AllIndices(table, order) && AllIndices(table, part)
    ensures AllIndices(table, r)
    ensures forall c :: c in r <==> c in part && !(table[c].parent.Some? && Listed(table, order, table[c].parent.value))
  {
    if part == [] then []
    else
      var first := table[part[0]];
      (if first.parent.Some? && Listed(table, order, first.parent.value) then [] else [part[0]])
      + RootsOf(table, order, part[1..])
  }

  lemma ParentIsEarlier(table: seq<Reply>, i: nat, c: nat)
    requires TableOk(table) && i < |table| && c < |table| && table[c].parent == Some(table[i].id)
    ensures i < c && table[i].review == table[c].review
  {
    assert HasParent(table, c);
    var p :| 0 <= p < c && IsParent(table, p, c);
    assert p == i;
  }

  ghost function Build(table: seq<Reply>, order: seq<nat>, i: nat): Tree
    requires TableOk(table) && AllIndices(table, order) && i < |table|
    decreases |table| - i, 1, 0
  {
    Node(table[i], BuildAll(table, order, ChildrenOf(table, order, i), i))
  }

  /** The trees of rows all listed after row `i` in the table. */
  ghost function BuildAll(table: seq<Reply>, order: seq<nat>, rows: seq<nat>, i: nat): (r: seq<Tree>)
    requires TableOk(table) && AllIndices(table, order) && i < |table|
    requires AllIndices(table, rows) && forall c :: c in rows ==> table[c].parent == Some(table[i].id)
    ensures |r| == |rows|
    decreases |table| - i, 0, |rows|
  {
    if rows == [] then []
    else
      assert rows[0] < |table|;
      ParentIsEarlier(table, i, rows[0]);
      [Build(table, order, rows[0])] + BuildAll(table, order, rows[1..], i)
  }

  ghost function BuildRoots(table: seq<Reply>, order: seq<nat>, rows: seq<nat>): (r: seq<Tree>)
    requires TableOk(table) && AllIndices(table, order) && AllIndices(table, rows)
    ensures |r| == |rows| && forall m :: 0 <= m < |rows| ==> r[m] == Build(table, order, rows[m])
  {
    if rows == [] then [] else [Build(table, order, rows[0])] + BuildRoots(table, order, rows[1..])
  }

  /** What `findThread` returns for a known review. */
  ghost function Forest(table: seq<Reply>, review: Text): seq<Tree>
    requires TableOk(table)
  {
    ListingExact(table, review);
    var order := Listing(table, review);
    BuildRoots(table, order, RootsOf(table, order, order))
  }

  function Flatten(t: Tree): seq<Reply> { [t.reply] + FlattenAll(t.children) }

  function FlattenAll(ts: seq<Tree>): seq<Reply> { if ts == [] then [] else Flatten(ts[0]) + FlattenAll(ts[1..]) }

  /** Every reply hangs under its own parent. */
  predicate OwnParents(t: Tree) {
    && (forall m :: 0 <= m < |t.children| ==> t.children[m].reply.parent == Some(t.reply.id))
    && forall m :: 0 <= m < |t.children| ==> OwnParents(t.children[m])
  }

  function Heads(ts: seq<Tree>): (r: seq<Reply>)
    ensures |r| == |ts| && forall m :: 0 <= m < |ts| ==> r[m] == ts[m].reply
  {
    if ts == [] then [] else [ts[0].reply] + Heads(ts[1..])
  }

  ghost predicate SiblingsInOrder(t: Tree) {
    && InOrder(Heads(t.children))
    && forall m :: 0 <= m < |t.children| ==> SiblingsInOrder(t.children[m])
  }

  // ---- under its own parent, siblings in order ------------------------------------------------

  /** `part` is the elements of `order` at the rising positions `at`. */
  ghost predicate Picks(part: seq<nat>, order: seq<nat>, at: seq<nat>)
    requires |at| == |part|
  {
    && (forall m :: 0 <= m < |at| ==> at[m] < |order| && part[m] == order[at[m]])
    && forall m, n :: 0 <= m < n < |at| ==> at[m] < at[n]
  }

  lemma {:induction false} ChildrenPicked(table: seq<Reply>, order: seq<nat>, i: nat) returns (at: seq<nat>)
    requires AllIndices(table, order) && i < |table|
    ensures |at| == |ChildrenOf(table, order, i)| && Picks(ChildrenOf(table, order, i), order, at)
  {
    at := [];
    if order != [] {
      var rest := ChildrenPicked(table, order[1..], i);
      at := PushFirst(ChildrenOf(table, order[1..], i), order, rest, table[order[0]].parent == Some(table[i].id));
    }
  }

  lemma {:induction false} RootsPicked(table: seq<Reply>, order: seq<nat>, part: seq<nat>) returns (at: seq<nat>)
    requires AllIndices(table, order) && AllIndices(table, part)
    ensures |at| == |RootsOf(table, order, part)| && Picks(RootsOf(table, order, part), part, at)
  {
    at := [];
    if part != [] {
      var rest := RootsPicked(table, order, part[1..]);
      var first := table[part[0]];
      at := PushFirst(RootsOf(table, order, part[1..]), part, rest,
                      !(first.parent.Some? && Listed(table, order, first.parent.value)));
    }
  }

  lemma PushFirst(part: seq<nat>, order: seq<nat>, rest: seq<nat>, picked: bool) returns (at: seq<nat>)
    requires order != [] && |rest| == |part| && Picks(part, order[1..], rest)
    ensures var more := (if picked then [order[0]] else []) + part; |at| == |more| && Picks(more, order, at)
  {
    var shifted := seq(|rest|, m requires 0 <= m < |rest| => rest[m] + 1);
    at := (if picked then [0] else []) + shifted;
  }

  lemma PickedInOrder(table: seq<Reply>, order: seq<nat>, part: seq<nat>, at: seq<nat>)
    requires AllIndices(table, order) && InOrder(RowsAt(table, order))
    requires |at| == |part| && Picks(part, order, at)
    ensures AllIndices(table, part) && InOrder(RowsAt(table, part))
  {
    var rows, all := RowsAt(table, part), RowsAt(table, order);
    forall m, n | 0 <= m < n < |rows|
      ensures rows[m].createdAt < rows[n].createdAt || (rows[m].createdAt == rows[n].createdAt && rows[m].id <= rows[n].id)
    {
      assert rows[m] == all[at[m]] && rows[n] == all[at[n]];
    }
  }

  lemma PickedDistinct(order: seq<nat>, part: seq<nat>, at: seq<nat>)
    requires Distinct(order) && |at| == |part| && Picks(part, order, at)
    ensures Distinct(part)
  {
  }

  lemma {:induction false} BuildAllHeads(table: seq<Reply>, order: seq<nat>, rows: seq<nat>, i: nat)
    requires TableOk(table) && AllIndices(table, order) && i < |table|
    requires AllIndices(table, rows) && forall c :: c in rows ==> table[c].parent == Some(table[i].id)
    ensures forall m :: 0 <= m < |rows| ==> BuildAll(table, order, rows, i)[m] == Build(table, order, rows[m])
    ensures Heads(BuildAll(table, order, rows, i)) == RowsAt(table, rows)
    decreases |rows|
  {
    if rows != [] { BuildAllHeads(table, order, rows[1..], i); }
  }

  lemma {:induction false} BuildIsOrderly(table: seq<Reply>, order: seq<nat>, i: nat)
    requires TableOk(table) && AllIndices(table, order) && i < |table| && InOrder(RowsAt(table, order))
    ensures OwnParents(Build(table, order, i)) && SiblingsInOrder(Build(table, order, i))
    decreases |table| - i
  {
    var rows := ChildrenOf(table, order, i);
    BuildAllHeads(table, order, rows, i);
    var at := ChildrenPicked(table, order, i);
    PickedInOrder(table, order, rows, at);
    forall m | 0 <= m < |rows|
      ensures OwnParents(Build(table, order, rows[m])) && SiblingsInOrder(Build(table, order, rows[m]))
    {
      assert rows[m] in rows;
      ParentIsEarlier(table, i, rows[m]);
      BuildIsOrderly(table, order, rows[m]);
    }
  }

  // ---- exactly once -------------------------------------------------------------------------

  /** Row `i` is row `j` or an ancestor of it. */
  predicate Above(table: seq<Reply>, i: nat, j: nat)
    requires j < |table|
    decreases j
  {
    i == j || (ParentRow(table, j).Some? && ParentRow(table, j).value < j && Above(table, i, ParentRow(table, j).value))
  }

  function ParentRow(table: seq<Reply>, j: nat): Option<nat>
    requires j < |table|
  {
    match table[j].parent case Some(p) => Find(table, p) case None => None
  }

  lemma ParentRowIs(table: seq<Reply>, i: nat, j: nat)
    requires TableOk(table) && i < |table| && j < |table|
    ensures ParentRow(table, j) == Some(i) <==> table[j].parent == Some(table[i].id)
    ensures ParentRow(table, j) == Some(i) ==> i < j && table[i].review == table[j].review
  {
    if table[j].parent == Some(table[i].id) { ParentIsEarlier(table, i, j); }
  }

  lemma ParentRowExists(table: seq<Reply>, j: nat)
    requires TableOk(table) && j < |table| && table[j].parent.Some?
    ensures ParentRow(table, j).Some? && ParentRow(table, j).value < j
    ensures table[ParentRow(table, j).value].review == table[j].review
  {
    assert HasParent(table, j);
    var i :| 0 <= i < j && IsParent(table, i, j);
    ParentRowIs(table, i, j);
  }

  lemma {:induction false} AboveIsEarlier(table: seq<Reply>, i: nat, j: nat)
    requires j < |table| && Above(table, i, j)
    ensures i <= j
    decreases j
  {
    if i != j { AboveIsEarlier(table, i, ParentRow(table, j).value); }
  }

  /** The child of `i` on the way down to `j`. */
  function Toward(table: seq<Reply>, i: nat, j: nat): nat
    requires j < |table|
    decreases j
  {
    var p := ParentRow(table, j);
    if p.None? || p.value >= j || p.value == i then j else Toward(table, i, p.value)
  }

  lemma {:induction false} ChildTowards(table: seq<Reply>, i: nat, c: nat, j: nat)
    requires TableOk(table) && i < |table| && c < |table| && j < |table|
    requires ParentRow(table, c) == Some(i) && Above(table, c, j)
    ensures c == Toward(table, i, j) && i != j && Above(table, i, j)
    decreases j
  {
    ParentRowIs(table, i, c);
    AboveIsEarlier(table, c, j);
    if c == j {
      assert Above(table, i, i);
    } else {
      var p := ParentRow(table, j).value;
      AboveIsEarlier(table, c, p);
      ChildTowards(table, i, c, p);
    }
  }

  lemma {:induction false} TowardIsChild(table: seq<Reply>, i: nat, j: nat)
    requires TableOk(table) && i < |table| && j < |table| && i != j && Above(table, i, j)
    ensures var c := Toward(table, i, j);
            c < |table| && ParentRow(table, c) == Some(i) && Above(table, c, j) && table[c].review == table[j].review
    decreases j
  {
    var p := ParentRow(table, j).value;
    ParentRowIs(table, p, j);
    if p != i {
      TowardIsChild(table, i, p);
    }
  }

  /** How many of the rows are `j` or above it. */
  function NumberAbove(table: seq<Reply>, rows: seq<nat>, j: nat): nat
    requires j < |table|
  {
    if rows == [] then 0 else (if Above(table, rows[0], j) then 1 else 0) + NumberAbove(table, rows[1..], j)
  }

  lemma {:induction false} OnlyOneAbove(table: seq<Reply>, rows: seq<nat>, j: nat, only: nat)
    requires j < |table| && Distinct(rows) && forall c :: c in rows && Above(table, c, j) ==> c == only
    ensures NumberAbove(table, rows, j) == if only in rows && Above(table, only, j) then 1 else 0
  {
    if rows != [] {
      assert forall c :: c in rows[1..] ==> c in rows;
      OnlyOneAbove(table, rows[1..], j, only);
    }
  }

  /** Exactly one child of an ancestor leads on to `j`. */
  lemma OneChildLeads(table: seq<Reply>, review: Text, order: seq<nat>, i: nat, j: nat)
    requires TableOk(table) && order == Listing(table, review) && i < |table| && j < |table| && table[j].review == review
    ensures AllIndices(table, order)
    ensures NumberAbove(table, ChildrenOf(table, order, i), j) == if i != j && Above(table, i, j) then 1 else 0
  {
    ListingExact(table, review);
    var rows := ChildrenOf(table, order, i);
    var at := ChildrenPicked(table, order, i);
    PickedDistinct(order, rows, at);
    forall c | c in rows
      ensures ParentRow(table, c) == Some(i)
    {
      ParentRowIs(table, i, c);
    }
    forall c | c in rows && Above(table, c, j)
      ensures c == Toward(table, i, j) && i != j && Above(table, i, j)
    {
      ChildTowards(table, i, c, j);
    }
    OnlyOneAbove(table, rows, j, Toward(table, i, j));
    if i != j && Above(table, i, j) {
      TowardIsChild(table, i, j);
      ParentRowIs(table, i, Toward(table, i, j));
    }
  }

  lemma {:induction false} CountInTree(table: seq<Reply>, review: Text, order: seq<nat>, i: nat, j: nat)
    requires TableOk(table) && order == Listing(table, review) && i < |table| && j < |table| && table[j].review == review
    ensures AllIndices(table, order)
    ensures multiset(Flatten(Build(table, order, i)))[table[j]] == if Above(table, i, j) then 1 else 0
    decreases |table| - i, 1, 0
  {
    ListingExact(table, review);
    CountInTrees(table, review, order, ChildrenOf(table, order, i), i, j);
    OneChildLeads(table, review, order, i, j);
    assert table[i] == table[j] <==> i == j;
  }

  lemma {:induction false} CountInTrees(table: seq<Reply>, review: Text, order: seq<nat>, rows: seq<nat>, i: nat, j: nat)
    requires TableOk(table) && order == Listing(table, review) && i < |table| && j < |table| && table[j].review == review
    requires AllIndices(table, rows) && forall c :: c in rows ==> table[c].parent == Some(table[i].id)
    ensures AllIndices(table, order)
    ensures multiset(FlattenAll(BuildAll(table, order, rows, i)))[table[j]] == NumberAbove(table, rows, j)
    decreases |table| - i, 0, |rows|
  {
    ListingExact(table, review);
    if rows != [] {
      ParentIsEarlier(table, i, rows[0]);
      CountInTree(table, review, order, rows[0], j);
      CountInTrees(table, review, order, rows[1..], i, j);
    }
  }

  /** The root `j` hangs under. */
  function RootOf(table: seq<Reply>, j: nat): nat
    requires j < |table|
    decreases j
  {
    var p := ParentRow(table, j);
    if p.None? || p.value >= j then j else RootOf(table, p.value)
  }

  lemma {:induction false} RootIsAbove(table: seq<Reply>, j: nat)
    requires TableOk(table) && j < |table|
    ensures var r := RootOf(table, j);
            r < |table| && table[r].parent.None? && Above(table, r, j) && table[r].review == table[j].review
    decreases j
  {
    if table[j].parent.Some? {
      ParentRowExists(table, j);
      RootIsAbove(table, ParentRow(table, j).value);
    }
  }

  lemma {:induction false} OnlyRootAbove(table: seq<Reply>, c: nat, j: nat)
    requires TableOk(table) && c < |table| && j < |table| && table[c].parent.None? && Above(table, c, j)
    ensures c == RootOf(table, j)
    decreases j
  {
    if c != j { OnlyRootAbove(table, c, ParentRow(table, j).value); }
  }

  /** Listed rows without a listed parent are the rows without a parent. */
  lemma RootsHaveNoParent(table: seq<Reply>, review: Text, order: seq<nat>, c: nat)
    requires TableOk(table) && order == Listing(table, review)
    ensures AllIndices(table, order)
    ensures c in RootsOf(table, order, order) <==> c in order && table[c].parent.None?
  {
    ListingExact(table, review);
    if c in order && table[c].parent.Some? {
      ParentRowExists(table, c);
      var p := ParentRow(table, c).value;
      assert p in order;
      var m :| 0 <= m < |order| && order[m] == p;
      assert table[order[m]].id == table[c].parent.value;
    }
  }

  lemma OneRootLeads(table: seq<Reply>, review: Text, order: seq<nat>, j: nat)
    requires TableOk(table) && order == Listing(table, review) && j < |table| && table[j].review == review
    ensures AllIndices(table, order) && NumberAbove(table, RootsOf(table, order, order), j) == 1
  {
    ListingExact(table, review);
    var rows := RootsOf(table, order, order);
    var at := RootsPicked(table, order, order);
    PickedDistinct(order, rows, at);
    forall c | c in rows && Above(table, c, j)
      ensures c == RootOf(table, j)
    {
      RootsHaveNoParent(table, review, order, c);
      OnlyRootAbove(table, c, j);
    }
    OnlyOneAbove(table, rows, j, RootOf(table, j));
    RootIsAbove(table, j);
    RootsHaveNoParent(table, review, order, RootOf(table, j));
  }

  lemma {:induction false} CountInRoots(table: seq<Reply>, review: Text, order: seq<nat>, rows: seq<nat>, j: nat)
    requires TableOk(table) && order == Listing(table, review) && j < |table| && table[j].review == review
    requires AllIndices(table, rows)
    ensures AllIndices(table, order)
    ensures multiset(FlattenAll(BuildRoots(table, order, rows)))[table[j]] == NumberAbove(table, rows, j)
    decreases |rows|
  {
    ListingExact(table, review);
    if rows != [] {
      CountInTree(table, review, order, rows[0], j);
      CountInRoots(table, review, order, rows[1..], j);
    }
  }

  predicate IsRow(table: seq<Reply>, order: seq<nat>, r: Reply)
    requires AllIndices(table, order)
  {
    exists m :: 0 <= m < |order| && table[order[m]] == r
  }

  lemma {:induction false} TreeHoldsRows(table: seq<Reply>, order: seq<nat>, i: nat, r: Reply)
    requires TableOk(table) && AllIndices(table, order) && i in order && i < |table| && r in Flatten(Build(table, order, i))
    ensures IsRow(table, order, r)
    decreases |table| - i, 1, 0
  {
    if r == table[i] {
      var m :| 0 <= m < |order| && order[m] == i;
      assert table[order[m]] == r;
    } else {
      TreesHoldRows(table, order, ChildrenOf(table, order, i), i, r);
    }
  }

  lemma {:induction false} TreesHoldRows(table: seq<Reply>, order: seq<nat>, rows: seq<nat>, i: nat, r: Reply)
    requires TableOk(table) && AllIndices(table, order) && i < |table|
    requires AllIndices(table, rows) && forall c :: c in rows ==> c in order && table[c].parent == Some(table[i].id)
    requires r in FlattenAll(BuildAll(table, order, rows, i))
    ensures IsRow(table, order, r)
    decreases |table| - i, 0, |rows|
  {
    assert rows[0] in order;
    ParentIsEarlier(table, i, rows[0]);
    if r in Flatten(Build(table, order, rows[0])) {
      TreeHoldsRows(table, order, rows[0], r);
    } else {
      TreesHoldRows(table, order, rows[1..], i, r);
    }
  }

  lemma {:induction false} RootsHoldRows(table: seq<Reply>, order: seq<nat>, rows: seq<nat>, r: Reply)
    requires TableOk(table) && AllIndices(table, order)
    requires AllIndices(table, rows) && forall c :: c in rows ==> c in order
    requires r in FlattenAll(BuildRoots(table, order, rows))
    ensures IsRow(table, order, r)
    decreases |rows|
  {
    assert rows[0] in order;
    if r in Flatten(Build(table, order, rows[0])) {
      TreeHoldsRows(table, order, rows[0], r);
    } else {
      RootsHoldRows(table, order, rows[1..], r);
    }
  }

  lemma {:induction false} RowsOnce(table: seq<Reply>, order: seq<nat>, m: nat)
    requires TableOk(table) && AllIndices(table, order) && Distinct(order) && m < |order|
    ensures multiset(RowsAt(table, order))[table[order[m]]] == 1
  {
    var rows, n := RowsAt(table, order), m + 1;
    var r := rows[m];
    assert rows == rows[..m] + ([r] + rows[n..]);
    forall k | 0 <= k < |rows| && k != m
      ensures rows[k] != r
    {
      assert order[k] != order[m];
    }
    assert r !in rows[..m] && r !in rows[n..];
    assert multiset(rows[..m])[r] == 0 && multiset(rows[n..])[r] == 0;
  }

  lemma ForestCounts(table: seq<Reply>, review: Text, order: seq<nat>, m: nat)
    requires TableOk(table) && order == Listing(table, review) && m < |order|
    ensures AllIndices(table, order)
    ensures multiset(FlattenAll(Forest(table, review)))[table[order[m]]] == 1
  {
    ListingExact(table, review);
    assert order[m] in order;
    CountInRoots(table, review, order, RootsOf(table, order, order), order[m]);
    OneRootLeads(table, review, order, order[m]);
  }

  lemma RowCounts(table: seq<Reply>, review: Text, order: seq<nat>, r: Reply)
    requires TableOk(table) && order == Listing(table, review) && AllIndices(table, order) && r in RowsAt(table, order)
    ensures multiset(FlattenAll(Forest(table, review)))[r] == 1 && multiset(RowsAt(table, order))[r] == 1
  {
    ListingExact(table, review);
    var m :| 0 <= m < |order| && RowsAt(table, order)[m] == r;
    ForestCounts(table, review, order, m);
    RowsOnce(table, order, m);
  }

  lemma ForestHoldsRows(table: seq<Reply>, review: Text, order: seq<nat>, r: Reply)
    requires TableOk(table) && order == Listing(table, review) && r in FlattenAll(Forest(table, review))
    ensures AllIndices(table, order) && r in RowsAt(table, order)
  {
    ListingExact(table, review);
    RootsHoldRows(table, order, RootsOf(table, order, order), r);
    var m :| 0 <= m < |order| && table[order[m]] == r;
    assert RowsAt(table, order)[m] == r;
  }

  lemma SameOnce(a: seq<Reply>, b: seq<Reply>)
    requires forall r :: r in b ==> multiset(a)[r] == 1 && multiset(b)[r] == 1
    requires forall r :: r in a ==> r in b
    ensures multiset(a) == multiset(b)
  {
    forall r
      ensures multiset(a)[r] == multiset(b)[r]
    {
      if r !in b {
        assert r !in a;
        assert multiset(a)[r] == 0 && multiset(b)[r] == 0;
      }
    }
  }

  /** The forest holds exactly the review's replies, each once. */
  lemma ForestHoldsEveryReplyOnce(table: seq<Reply>, review: Text)
    requires TableOk(table)
    ensures AllIndices(table, Listing(table, review))
    ensures multiset(FlattenAll(Forest(table, review))) == multiset(RowsAt(table, Listing(table, review)))
  {
    ListingExact(table, review);
    var order := Listing(table, review);
    var flat, rows := FlattenAll(Forest(table, review)), RowsAt(table, order);
    forall r | r in rows
      ensures multiset(flat)[r] == 1 && multiset(rows)[r] == 1
    {
      RowCounts(table, review, order, r);
    }
    forall r | r in flat
      ensures r in rows
    {
      ForestHoldsRows(table, review, order, r);
    }
    SameOnce(flat, rows);
  }

  /** Every reply is under its own parent, roots have none, and siblings are in (createdAt, id) order. */
  lemma ForestIsOrderly(table: seq<Reply>, review: Text)
    requires TableOk(table)
    ensures var forest := Forest(table, review);
            && InOrder(Heads(forest))
            && forall m :: 0 <= m < |forest| ==>
                 forest[m].reply.parent.None? && OwnParents(forest[m]) && SiblingsInOrder(forest[m])
  {
    ListingExact(table, review);
    var order, forest := Listing(table, review), Forest(table, review);
    var roots := RootsOf(table, order, order);
    var at := RootsPicked(table, order, order);
    PickedInOrder(table, order, roots, at);
    assert Heads(forest) == RowsAt(table, roots);
    forall m | 0 <= m < |forest|
      ensures forest[m].reply.parent.None? && OwnParents(forest[m]) && SiblingsInOrder(forest[m])
    {
      assert roots[m] in roots;
      RootsHaveNoParent(table, review, order, roots[m]);
      BuildIsOrderly(table, order, roots[m]);
    }
  }

  // ---- on the heap --------------------------------------------------------------------------

  class ReplyNode {
    const reply: Reply
    var children: seq<ReplyNode>

    constructor (reply: Reply)
      ensures this.reply == reply && children == []
    {
      this.reply := reply;
      children := [];
    }
  }

  /** The linked nodes below `node`, all in `heap`, are the tree. */
  ghost predicate Matches(node: ReplyNode, tree: Tree, heap: set<ReplyNode>)
    reads heap
    decreases tree
  {
    && node in heap && node.reply == tree.reply && |node.children| == |tree.children|
    && forall m :: 0 <= m < |node.children| ==> node.children[m] in heap && Matches(node.children[m], tree.children[m], heap)
  }

  /** The map from ids to nodes has one for each listed row, made from it. */
  ghost predicate NodesOk(table: seq<Reply>, order: seq<nat>, nodes: map<nat, ReplyNode>) {
    && AllIndices(table, order)
    && (forall i :: i in order ==> table[i].id in nodes && nodes[table[i].id].reply == table[i])
    && forall id :: id in nodes ==> nodes[id].reply.id == id && Listed(table, order, id)
  }

  function NodesAt(table: seq<Reply>, nodes: map<nat, ReplyNode>, rows: seq<nat>): (r: seq<ReplyNode>)
    requires AllIndices(table, rows) && forall i :: i in rows ==> table[i].id in nodes
    ensures |r| == |rows| && forall m :: 0 <= m < |rows| ==> r[m] == nodes[table[rows[m]].id]
  {
    if rows == [] then [] else [nodes[table[rows[0]].id]] + NodesAt(table, nodes, rows[1..])
  }

  /** The nodes of row `i`'s children among the first `k` listed rows. */
  function Kids(table: seq<Reply>, order: seq<nat>, nodes: map<nat, ReplyNode>, k: nat, i: nat): seq<ReplyNode>
    requires NodesOk(table, order, nodes) && k <= |order| && i in order
  {
    NodesAt(table, nodes, ChildrenOf(table, order[..k], i))
  }

  /** Each node's children are the nodes of its children among the rows handled so far. */
  ghost predicate Linked(table: seq<Reply>, order: seq<nat>, k: nat, nodes: map<nat, ReplyNode>)
    requires NodesOk(table, order, nodes) && k <= |order|
    reads nodes.Values
  {
    forall i :: i in order ==> nodes[table[i].id].children == Kids(table, order, nodes, k, i)
  }

  lemma {:induction false} ChildrenPush(table: seq<Reply>, done: seq<nat>, x: nat, i: nat)
    requires AllIndices(table, done) && x < |table| && i < |table|
    ensures ChildrenOf(table, done + [x], i)
            == ChildrenOf(table, done, i) + (if table[x].parent == Some(table[i].id) then [x] else [])
    decreases |done|
  {
    if done != [] {
      ChildrenPush(table, done[1..], x, i);
      assert (done + [x])[1..] == done[1..] + [x];
    } else {
      assert [x][1..] == [];
    }
  }

  lemma {:induction false} RootsPush(table: seq<Reply>, order: seq<nat>, done: seq<nat>, x: nat)
    requires AllIndices(table, order) && AllIndices(table, done) && x < |table|
    ensures RootsOf(table, order, done + [x])
            == RootsOf(table, order, done)
               + (if table[x].parent.Some? && Listed(table, order, table[x].parent.value) then [] else [x])
    decreases |done|
  {
    if done != [] {
      RootsPush(table, order, done[1..], x);
      assert (done + [x])[1..] == done[1..] + [x];
    } else {
      assert [x][1..] == [];
    }
  }

  lemma {:induction false} NodesAtPush(table: seq<Reply>, nodes: map<nat, ReplyNode>, rows: seq<nat>, x: nat)
    requires AllIndices(table, rows) && x < |table| && table[x].id in nodes
    requires forall i :: i in rows ==> table[i].id in nodes
    ensures NodesAt(table, nodes, rows + [x]) == NodesAt(table, nodes, rows) + [nodes[table[x].id]]
  {
    var a, b := NodesAt(table, nodes, rows + [x]), NodesAt(table, nodes, rows) + [nodes[table[x].id]];
    assert forall m :: 0 <= m < |a| ==> a[m] == b[m];
  }

  lemma MatchUp(node: ReplyNode, tree: Tree, heap: set<ReplyNode>)
    requires node in heap && node.reply == tree.reply && |node.children| == |tree.children|
    requires forall m :: 0 <= m < |node.children| ==> node.children[m] in heap && Matches(node.children[m], tree.children[m], heap)
    ensures Matches(node, tree, heap)
  {
  }

  lemma KidsAt(table: seq<Reply>, order: seq<nat>, nodes: map<nat, ReplyNode>, i: nat, m: nat)
    requires NodesOk(table, order, nodes) && i in order
    requires m < |ChildrenOf(table, order, i)|
    ensures var c := ChildrenOf(table, order, i)[m];
            && c in order && table[c].parent == Some(table[i].id)
            && m < |Kids(table, order, nodes, |order|, i)| && Kids(table, order, nodes, |order|, i)[m] == nodes[table[c].id]
            && nodes[table[c].id] in nodes.Values
  {
    assert order[..|order|] == order;
    assert ChildrenOf(table, order, i)[m] in ChildrenOf(table, order, i);
  }

  lemma KidsCount(table: seq<Reply>, order: seq<nat>, nodes: map<nat, ReplyNode>, i: nat)
    requires NodesOk(table, order, nodes) && i in order
    ensures |Kids(table, order, nodes, |order|, i)| == |ChildrenOf(table, order, i)|
  {
    assert order[..|order|] == order;
  }

  /** Linked nodes are the functional forest. */
  lemma {:induction false} LinkedIsBuilt(table: seq<Reply>, order: seq<nat>, nodes: map<nat, ReplyNode>, i: nat)
    requires TableOk(table) && NodesOk(table, order, nodes) && Linked(table, order, |order|, nodes) && i in order
    ensures Matches(nodes[table[i].id], Build(table, order, i), nodes.Values)
    decreases |table| - i
  {
    var rows, node, tree := ChildrenOf(table, order, i), nodes[table[i].id], Build(table, order, i);
    BuildAllHeads(table, order, rows, i);
    KidsCount(table, order, nodes, i);
    forall m | 0 <= m < |node.children|
      ensures node.children[m] in nodes.Values && Matches(node.children[m], tree.children[m], nodes.Values)
    {
      KidsAt(table, order, nodes, i, m);
      ParentIsEarlier(table, i, rows[m]);
      LinkedIsBuilt(table, order, nodes, rows[m]);
    }
    MatchUp(node, tree, nodes.Values);
  }

  /** The loop that makes a node for each row. */
  method MakeNodes(table: seq<Reply>, order: seq<nat>) returns (nodes: map<nat, ReplyNode>)
    requires TableOk(table) && AllIndices(table, order) && Distinct(order)
    ensures NodesOk(table, order, nodes) && Linked(table, order, 0, nodes)
    ensures fresh(nodes.Values)
  {
    nodes := map[];
    for k := 0 to |order|
      invariant forall id :: id in nodes ==> fresh(nodes[id])
      invariant forall id :: id in nodes <==> exists m :: 0 <= m < k && table[order[m]].id == id
      invariant forall m :: 0 <= m < k ==> nodes[table[order[m]].id].reply == table[order[m]]
      invariant forall id :: id in nodes ==> nodes[id].reply.id == id && nodes[id].children == []
    {
      var node := new ReplyNode(table[order[k]]);
      assert forall m :: 0 <= m < k ==> order[m] != order[k];
      nodes := nodes[table[order[k]].id := node];
    }
  }

  /** What row `order[k]` adds below row `i`. */
  lemma KidsStep(table: seq<Reply>, order: seq<nat>, nodes: map<nat, ReplyNode>, k: nat, i: nat)
    requires NodesOk(table, order, nodes) && k < |order| && i in order
    ensures order[k] in order
    ensures Kids(table, order, nodes, k + 1, i)
            == if table[order[k]].parent == Some(table[i].id) then Kids(table, order, nodes, k, i) + [nodes[table[order[k]].id]]
               else Kids(table, order, nodes, k, i)
  {
    assert order[..k + 1] == order[..k] + [order[k]];
    ChildrenPush(table, order[..k], order[k], i);
    var rows := ChildrenOf(table, order[..k], i);
    if table[order[k]].parent == Some(table[i].id) {
      NodesAtPush(table, nodes, rows, order[k]);
    } else {
      assert rows + [] == rows;
    }
  }

  function RootNodes(table: seq<Reply>, order: seq<nat>, nodes: map<nat, ReplyNode>, k: nat): seq<ReplyNode>
    requires NodesOk(table, order, nodes) && k <= |order|
  {
    NodesAt(table, nodes, RootsOf(table, order, order[..k]))
  }

  lemma RootsStep(table: seq<Reply>, order: seq<nat>, nodes: map<nat, ReplyNode>, k: nat)
    requires NodesOk(table, order, nodes) && k < |order|
    ensures order[k] in order
    ensures var reply := table[order[k]];
            RootNodes(table, order, nodes, k + 1)
            == if reply.parent.Some? && reply.parent.value in nodes then RootNodes(table, order, nodes, k)
               else RootNodes(table, order, nodes, k) + [nodes[reply.id]]
  {
    var reply, rows := table[order[k]], RootsOf(table, order, order[..k]);
    assert order[..k + 1] == order[..k] + [order[k]];
    RootsPush(table, order, order[..k], order[k]);
    if reply.parent.Some? { ParentIsNode(table, order, nodes, order[k]); }
    if reply.parent.Some? && reply.parent.value in nodes {
      assert rows + [] == rows;
    } else {
      RootsPushNode(table, order, nodes, rows, k);
    }
  }

  lemma RootsPushNode(table: seq<Reply>, order: seq<nat>, nodes: map<nat, ReplyNode>, rows: seq<nat>, k: nat)
    requires NodesOk(table, order, nodes) && k < |order| && rows == RootsOf(table, order, order[..k])
    ensures order[k] in order && AllIndices(table, rows + [order[k]])
    ensures forall i :: i in rows + [order[k]] ==> table[i].id in nodes
    ensures NodesAt(table, nodes, rows + [order[k]]) == RootNodes(table, order, nodes, k) + [nodes[table[order[k]].id]]
  {
    assert order[k] in order;
    NodesAtPush(table, nodes, rows, order[k]);
  }

  lemma ParentIsNode(table: seq<Reply>, order: seq<nat>, nodes: map<nat, ReplyNode>, c: nat)
    requires NodesOk(table, order, nodes) && c < |table| && table[c].parent.Some?
    ensures table[c].parent.value in nodes <==> Listed(table, order, table[c].parent.value)
  {
    if Listed(table, order, table[c].parent.value) {
      var m :| 0 <= m < |order| && table[order[m]].id == table[c].parent.value;
      assert order[m] in order;
    }
  }

  /** A row without a listed parent changes no list of children. */
  lemma StillLinked(table: seq<Reply>, order: seq<nat>, k: nat, nodes: map<nat, ReplyNode>)
    requires NodesOk(table, order, nodes) && k < |order| && Linked(table, order, k, nodes)
    requires table[order[k]].parent.None? || table[order[k]].parent.value !in nodes
    ensures Linked(table, order, k + 1, nodes)
  {
    forall i | i in order
      ensures nodes[table[i].id].children == Kids(table, order, nodes, k + 1, i)
    {
      KidsStep(table, order, nodes, k, i);
    }
  }

  /** `parent.children.push(node)`. */
  method LinkOne(table: seq<Reply>, order: seq<nat>, k: nat, nodes: map<nat, ReplyNode>)
    requires NodesOk(table, order, nodes) && k < |order| && Linked(table, order, k, nodes)
    requires table[order[k]].parent.Some? && table[order[k]].parent.value in nodes
    modifies nodes[table[order[k]].parent.value]
    ensures Linked(table, order, k + 1, nodes)
  {
    assert order[k] in order;
    var parent, node := nodes[table[order[k]].parent.value], nodes[table[order[k]].id];
    parent.children := parent.children + [node];
    forall i | i in order
      ensures nodes[table[i].id].children == Kids(table, order, nodes, k + 1, i)
    {
      KidsStep(table, order, nodes, k, i);
      assert nodes[table[i].id] == parent <==> table[i].id == table[order[k]].parent.value;
    }
  }

  /** The loop that hangs each node under its parent, or makes it a root. */
  method LinkNodes(table: seq<Reply>, order: seq<nat>, nodes: map<nat, ReplyNode>) returns (roots: seq<ReplyNode>)
    requires NodesOk(table, order, nodes) && Linked(table, order, 0, nodes)
    modifies nodes.Values
    ensures Linked(table, order, |order|, nodes) && roots == RootNodes(table, order, nodes, |order|)
  {
    roots := [];
    for k := 0 to |order|
      invariant Linked(table, order, k, nodes)
      invariant roots == RootNodes(table, order, nodes, k)
    {
      RootsStep(table, order, nodes, k);
      var reply := table[order[k]];
      if reply.parent.Some? && reply.parent.value in nodes {
        LinkOne(table, order, k, nodes);
      } else {
        StillLinked(table, order, k, nodes);
        roots := roots + [nodes[reply.id]];
      }
    }
  }

  /** `findThread`: the nodes it links are the functional forest. */
  method FindThread(reviews: set<Text>, table: seq<Reply>, review: Text)
    returns (result: Result<seq<ReplyNode>, Error>, ghost heap: set<ReplyNode>)
    requires TableOk(table)
    ensures review !in reviews ==> result == Err(NotFound)
    ensures review in reviews ==> result.Ok? && fresh(heap) && AllMatch(result.value, Forest(table, review), heap)
  {
    if review !in reviews { return Err(NotFound), {}; }
    var order := Listing(table, review);
    ListingExact(table, review);
    var nodes := MakeNodes(table, order);
    var roots := LinkNodes(table, order, nodes);
    heap := nodes.Values;
    RootsMatch(table, review, order, nodes, roots);
    result := Ok(roots);
  }

  ghost predicate AllMatch(roots: seq<ReplyNode>, trees: seq<Tree>, heap: set<ReplyNode>)
    reads heap
  {
    |roots| == |trees| && forall m :: 0 <= m < |roots| ==> roots[m] in heap && Matches(roots[m], trees[m], heap)
  }

  lemma RootsMatch(table: seq<Reply>, review: Text, order: seq<nat>, nodes: map<nat, ReplyNode>, roots: seq<ReplyNode>)
    requires TableOk(table) && order == Listing(table, review)
    requires NodesOk(table, order, nodes) && Linked(table, order, |order|, nodes)
    requires roots == RootNodes(table, order, nodes, |order|)
    ensures AllMatch(roots, Forest(table, review), nodes.Values)
  {
    ListingExact(table, review);
    assert order[..|order|] == order;
    var rows := RootsOf(table, order, order);
    forall m | 0 <= m < |rows|
      ensures roots[m] in nodes.Values && Matches(roots[m], Build(table, order, rows[m]), nodes.Values)
    {
      assert rows[m] in rows;
      LinkedIsBuilt(table, order, nodes, rows[m]);
    }
  }
}
