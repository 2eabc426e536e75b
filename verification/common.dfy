/** Values shared by every part of the registry: optional values, the error
    outcomes of a request, and the store-order listing, paging and filtering
    that the database queries perform. */
module Common {

  datatype Option<+T> = None | Some(value: T)

  /** The ways a request can fail. */
  datatype Error =
    | BadRequest   // a uniqueness pre-check failed
    | Forbidden    // the caller's role does not allow the operation
    | NotFound     // the referenced record does not exist (under that parent)
    | StoreError   // the database refused the commit (an integrity constraint)

  datatype Result<+T> = Ok(value: T) | Err(error: Error)

  /** The HTTP status each failure is reported with; a refused commit is an
      unhandled exception, which the web framework turns into a 500. */
  function StatusCode(e: Error): (code: int)
    ensures 400 <= code < 600
    ensures code == 500 <==> e == StoreError
  {
    match e
    case BadRequest => 400
    case Forbidden => 403
    case NotFound => 404
    case StoreError => 500
  }

  /** The value a column takes after a partial update: the patched value when
      the patch sets the column, the old value otherwise. */
  function Pick<T>(patch: Option<T>, was: T): T
  {
    if patch.Some? then patch.value else was
  }

  /** `now` is what a partial update with `patch` leaves in a column that held `was`. */
  predicate Patched<T(==)>(was: T, now: T, patch: Option<T>)
  {
    match patch
    case None => now == was
    case Some(v) => now == v
  }

  /** One table with an auto-increment primary key: its rows by key, the keys
      in store order (the order a query without ORDER BY returns them), and
      the key the sequence hands out next. */
  datatype Rows<V> = Rows(byId: map<int, V>, order: seq<int>, nextId: int)

  /** `order` lists every key of `m` exactly once, and `next` is above every
      key: the shape of a table with an auto-increment primary key. */
  ghost predicate Table<V>(m: map<int, V>, order: seq<int>, next: int)
  {
    && (forall i, j :: 0 <= i < j < |order| ==> order[i] != order[j])
    && (forall i :: 0 <= i < |order| ==> order[i] in m)
    && (forall k :: k in m ==> k in order)
    && (forall k :: k in m ==> k < next)
  }

  /** Inserting a row under the next key keeps the table's shape. */
  lemma TableInsert<V>(m: map<int, V>, order: seq<int>, next: int, v: V)
    requires Table(m, order, next)
    ensures Table(m[next := v], order + [next], next + 1)
  {
    assert next !in order;
  }

  /** Adding a key to the right operand of a map union adds it to the union. */
  lemma MergeUpdate<K, V>(a: map<K, V>, b: map<K, V>, k: K, v: V)
    ensures a + b[k := v] == (a + b)[k := v]
  {
  }

  /** The table after `v` is inserted under the next key. */
  function Inserted<V>(t: Rows<V>, v: V): Rows<V>
  {
    Rows(t.byId[t.nextId := v], t.order + [t.nextId], t.nextId + 1)
  }

  /** Inserting a row keeps the table's shape. */
  lemma InsertedTable<V>(t: Rows<V>, v: V)
    requires Table(t.byId, t.order, t.nextId)
    ensures Table(Inserted(t, v).byId, Inserted(t, v).order, Inserted(t, v).nextId)
  {
    TableInsert(t.byId, t.order, t.nextId, v);
  }

  /** Rewriting a stored row keeps the table's shape. */
  lemma TableUpdate<V>(m: map<int, V>, order: seq<int>, next: int, k: int, v: V)
    requires Table(m, order, next) && k in m
    ensures Table(m[k := v], order, next)
  {
  }

  /** The records of `m` in store order, as a query without ORDER BY returns them. */
  function Listing<V>(m: map<int, V>, order: seq<int>): (r: seq<V>)
    requires forall i :: 0 <= i < |order| ==> order[i] in m
    ensures |r| == |order|
    ensures forall i :: 0 <= i < |order| ==> r[i] == m[order[i]]
  {
    if order == [] then []
    else Listing(m, order[..|order| - 1]) + [m[order[|order| - 1]]]
  }

  function Min(a: int, b: int): int
  {
    if a < b then a else b
  }

  /** `OFFSET skip LIMIT limit` over `s`. */
  function Page<T>(s: seq<T>, skip: nat, limit: nat): (r: seq<T>)
    ensures |r| <= limit
    ensures |r| == if skip >= |s| then 0 else Min(|s| - skip, limit)
    ensures forall i :: 0 <= i < |r| ==> skip + i < |s| && r[i] == s[skip + i]
  {
    if skip >= |s| then []
    else if |s| - skip < limit then s[skip..]
    else s[skip..skip + limit]
  }

  /** A WHERE clause: the elements of `s` that satisfy `keep`, in their order. */
  function Select<T(!new)>(s: seq<T>, keep: T -> bool): (r: seq<T>)
    ensures |r| <= |s|
    ensures forall x :: x in r <==> x in s && keep(x)
  {
    if s == [] then []
    else Select(s[..|s| - 1], keep) + (if keep(s[|s| - 1]) then [s[|s| - 1]] else [])
  }

  /** Two WHERE clauses applied one after the other select what their
      conjunction selects, in the same order. */
  lemma {:induction false} SelectSelect<T(!new)>(s: seq<T>, p: T -> bool, q: T -> bool, pq: T -> bool)
    requires forall x :: pq(x) == (p(x) && q(x))
    ensures Select(Select(s, p), q) == Select(s, pq)
  {
    if s != [] {
      var init, last := s[..|s| - 1], s[|s| - 1];
      SelectSelect(init, p, q, pq);
      var tail := if p(last) then [last] else [];
      assert Select(s, p) == Select(init, p) + tail;
      SelectAppend(Select(init, p), tail, q);
    }
  }

  /** Filtering distributes over concatenation. */
  lemma {:induction false} SelectAppend<T(!new)>(a: seq<T>, b: seq<T>, keep: T -> bool)
    ensures Select(a + b, keep) == Select(a, keep) + Select(b, keep)
  {
    if b != [] {
      var init, last := b[..|b| - 1], b[|b| - 1];
      assert (a + b)[..|a + b| - 1] == a + init;
      SelectAppend(a, init, keep);
    } else {
      assert a + b == a;
    }
  }

  /** Clauses that agree on every element select the same elements. */
  lemma {:induction false} SelectExt<T(!new)>(s: seq<T>, p: T -> bool, q: T -> bool)
    requires forall x :: p(x) == q(x)
    ensures Select(s, p) == Select(s, q)
  {
    if s != [] {
      SelectExt(s[..|s| - 1], p, q);
    }
  }

  /** A listing of every key shows exactly the stored values. */
  lemma ListingValues<V>(m: map<int, V>, order: seq<int>)
    requires forall i :: 0 <= i < |order| ==> order[i] in m
    requires forall k :: k in m ==> k in order
    ensures forall v :: v in Listing(m, order) <==> v in m.Values
  {
    var l := Listing(m, order);
    forall k | k in m ensures m[k] in l {
      var i :| 0 <= i < |order| && order[i] == k;
      assert l[i] == m[k];
    }
  }

  /** A clause that keeps everything leaves the sequence as it is. */
  lemma {:induction false} SelectAll<T(!new)>(s: seq<T>, keep: T -> bool)
    requires forall x :: keep(x)
    ensures Select(s, keep) == s
  {
    if s != [] {
      SelectAll(s[..|s| - 1], keep);
    }
  }
}
