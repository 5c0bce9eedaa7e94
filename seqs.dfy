/** Row selection on a table held as a sequence: what a `WHERE` clause does
    to the rows it steps through, in their order. */
module Seqs {
  import opened Wrappers

  /** The elements of `s` that satisfy `p`, in their order in `s`. */
  function Filter<T>(s: seq<T>, p: T -> bool): (r: seq<T>)
    ensures |r| <= |s|
  {
    if s == [] then [] else (if p(s[0]) then [s[0]] else []) + Filter(s[1..], p)
  }

  /** Exactly the matching elements are selected. */
  lemma {:induction false} FilterMembers<T>(s: seq<T>, p: T -> bool)
    ensures forall i :: 0 <= i < |Filter(s, p)| ==> Filter(s, p)[i] in s && p(Filter(s, p)[i])
    ensures forall i :: 0 <= i < |s| && p(s[i]) ==> s[i] in Filter(s, p)
  {
    if s != [] {
      FilterMembers(s[1..], p);
      var f := Filter(s, p);
      var t := Filter(s[1..], p);
      assert f == (if p(s[0]) then [s[0]] else []) + t;
      forall i | 0 <= i < |s| && p(s[i]) ensures s[i] in f {
        if i > 0 { assert s[i] == s[1..][i - 1]; }
      }
    }
  }

  lemma {:induction false} FilterConcat<T>(a: seq<T>, b: seq<T>, p: T -> bool)
    ensures Filter(a + b, p) == Filter(a, p) + Filter(b, p)
  {
    if a == [] {
      assert a + b == b;
      assert Filter(a, p) + Filter(b, p) == Filter(b, p);
    } else {
      var head := if p(a[0]) then [a[0]] else [];
      assert (a + b)[0] == a[0];
      assert (a + b)[1..] == a[1..] + b;
      FilterConcat(a[1..], b, p);
      assert Filter(a + b, p) == head + (Filter(a[1..], p) + Filter(b, p));
      assert Filter(a, p) == head + Filter(a[1..], p);
    }
  }

  /** Stepping one more row: the selection grows by that row iff it matches. */
  lemma FilterSnoc<T>(s: seq<T>, x: T, p: T -> bool)
    ensures Filter(s + [x], p) == Filter(s, p) + (if p(x) then [x] else [])
  {
    FilterConcat(s, [x], p);
    assert Filter([x], p) == (if p(x) then [x] else []) + Filter([x][1..], p);
  }

  /** Selecting again with a weaker condition changes nothing. */
  lemma {:induction false} FilterWeaker<T>(s: seq<T>, p: T -> bool, q: T -> bool)
    requires forall x :: p(x) ==> q(x)
    ensures Filter(Filter(s, p), q) == Filter(s, p)
  {
    if s != [] {
      FilterWeaker(s[1..], p, q);
      if p(s[0]) {
        var f := Filter(s, p);
        assert f == [s[0]] + Filter(s[1..], p);
        assert f[1..] == Filter(s[1..], p);
        assert Filter(f, q) == (if q(f[0]) then [f[0]] else []) + Filter(f[1..], q);
      } else {
        assert Filter(s, p) == [] + Filter(s[1..], p) == Filter(s[1..], p);
      }
    }
  }

  /** Selecting with `q` after `p` when the two conditions never both hold. */
  lemma {:induction false} FilterDisjoint<T>(s: seq<T>, p: T -> bool, q: T -> bool)
    requires forall x :: p(x) ==> !q(x)
    ensures Filter(Filter(s, p), q) == []
  {
    if s != [] {
      FilterDisjoint(s[1..], p, q);
      if p(s[0]) {
        var f := Filter(s, p);
        assert f == [s[0]] + Filter(s[1..], p);
        assert f[1..] == Filter(s[1..], p);
        assert !q(f[0]);
        assert Filter(f, q) == [] + Filter(f[1..], q);
      } else {
        assert Filter(s, p) == [] + Filter(s[1..], p) == Filter(s[1..], p);
      }
    }
  }

  /** Selecting with `q` after `p`, where every `q` element satisfies `p`,
      is selecting with `q` alone. */
  lemma {:induction false} FilterStronger<T>(s: seq<T>, p: T -> bool, q: T -> bool)
    requires forall x :: q(x) ==> p(x)
    ensures Filter(Filter(s, p), q) == Filter(s, q)
  {
    if s != [] {
      FilterStronger(s[1..], p, q);
      if p(s[0]) {
        var f := Filter(s, p);
        assert f == [s[0]] + Filter(s[1..], p);
        assert f[1..] == Filter(s[1..], p);
        assert Filter(f, q) == (if q(f[0]) then [f[0]] else []) + Filter(f[1..], q);
      } else {
        assert Filter(s, p) == [] + Filter(s[1..], p) == Filter(s[1..], p);
      }
    }
  }

  /** The first selected element is the first element of `s` that matches. */
  lemma {:induction false} FilterFirst<T>(s: seq<T>, p: T -> bool)
    requires Filter(s, p) != []
    ensures exists i :: 0 <= i < |s| && p(s[i]) && s[i] == Filter(s, p)[0] && forall j :: 0 <= j < i ==> !p(s[j])
  {
    if !p(s[0]) {
      FilterFirst(s[1..], p);
      var i :| 0 <= i < |s[1..]| && p(s[1..][i]) && s[1..][i] == Filter(s[1..], p)[0] && forall j :: 0 <= j < i ==> !p(s[1..][j]);
      assert s[i + 1] == s[1..][i];
      assert forall j :: 0 <= j < i + 1 ==> !p(s[j]) by {
        forall j | 0 <= j < i + 1 ensures !p(s[j]) {
          if j > 0 { assert s[j] == s[1..][j - 1]; }
        }
      }
    }
  }

  /** Reading rows one at a time and unwrapping each reading, as a
      `while stmt.step()` loop does with `into_serde().unwrap()`: the first
      row that does not read panics with `failure`. */
  function ReadAll<R, A>(rows: seq<R>, read: R -> Option<A>, failure: string): (r: Outcome<seq<A>>)
    ensures r.Ok? || r == Panic(failure)
    ensures r.Ok? ==> |r.value| == |rows|
  {
    if rows == [] then Ok([])
    else
      var init := ReadAll(rows[..|rows| - 1], read, failure);
      match init
      case Ok(values) =>
        (match read(rows[|rows| - 1])
         case Some(v) => Ok(values + [v])
         case None => Panic(failure))
      case _ => init
  }

  /** A reading succeeds iff every row reads, and then holds each row's value. */
  lemma {:induction false} ReadAllValues<R, A>(rows: seq<R>, read: R -> Option<A>, failure: string)
    ensures ReadAll(rows, read, failure).Ok? ==> forall k :: 0 <= k < |rows| ==> read(rows[k]) == Some(ReadAll(rows, read, failure).value[k])
    ensures ReadAll(rows, read, failure).Panic? <==> exists k :: 0 <= k < |rows| && read(rows[k]).None?
  {
    if rows != [] {
      var init := rows[..|rows| - 1];
      ReadAllValues(init, read, failure);
      assert forall k :: 0 <= k < |rows| - 1 ==> init[k] == rows[k];
    }
  }

  /** Reading a single row that reads. */
  lemma ReadAllSingle<R, A>(x: R, read: R -> Option<A>, failure: string)
    requires read(x).Some?
    ensures ReadAll([x], read, failure) == Ok([read(x).value])
  {
    assert [x][..|[x]| - 1] == [];
    assert ReadAll([], read, failure) == Ok([]);
    assert [] + [read(x).value] == [read(x).value];
  }

  /** Reading one more row. */
  lemma ReadAllSnoc<R, A>(rows: seq<R>, x: R, read: R -> Option<A>, failure: string)
    ensures ReadAll(rows + [x], read, failure)
         == match ReadAll(rows, read, failure)
            case Ok(values) => (match read(x) case Some(v) => Ok(values + [v]) case None => Panic(failure))
            case _ => Panic(failure)
  {
    assert (rows + [x])[..|rows + [x]| - 1] == rows;
  }

  /** Once a reading has panicked, more rows do not change the answer. */
  lemma {:induction false} ReadAllPanicStays<R, A>(a: seq<R>, b: seq<R>, read: R -> Option<A>, failure: string)
    requires ReadAll(a, read, failure).Panic?
    ensures ReadAll(a + b, read, failure) == Panic(failure)
  {
    if b != [] {
      var c := b[..|b| - 1];
      ReadAllPanicStays(a, c, read, failure);
      assert a + b == (a + c) + [b[|b| - 1]];
      ReadAllSnoc(a + c, b[|b| - 1], read, failure);
    } else {
      assert a + b == a;
    }
  }

  /** One step of a loop that reads the matching elements of `s` in order:
      a matching element that reads is appended, any other leaves the
      values as they were. */
  lemma ReadFilteredStep<R, A>(s: seq<R>, i: int, p: R -> bool, read: R -> Option<A>, failure: string, values: seq<A>)
    requires 0 <= i < |s| && ReadAll(Filter(s[..i], p), read, failure) == Ok(values)
    requires p(s[i]) ==> read(s[i]).Some?
    ensures ReadAll(Filter(s[..i + 1], p), read, failure) == Ok(if p(s[i]) then values + [read(s[i]).value] else values)
  {
    assert s[..i + 1] == s[..i] + [s[i]];
    FilterSnoc(s[..i], s[i], p);
    ReadAllSnoc(Filter(s[..i], p), s[i], read, failure);
    if !p(s[i]) {
      assert Filter(s[..i + 1], p) == Filter(s[..i], p);
    }
  }

  /** The loop meets a matching element that does not read: the whole
      reading panics. */
  lemma ReadFilteredPanic<R, A>(s: seq<R>, i: int, p: R -> bool, read: R -> Option<A>, failure: string)
    requires 0 <= i < |s| && ReadAll(Filter(s[..i], p), read, failure).Ok?
    requires p(s[i]) && read(s[i]).None?
    ensures ReadAll(Filter(s, p), read, failure) == Panic(failure)
  {
    ReadFilteredPanicHere(s, i, p, read, failure);
    FilterConcat(s[..i + 1], s[i + 1..], p);
    assert s[..i + 1] + s[i + 1..] == s;
    ReadAllPanicStays(Filter(s[..i + 1], p), Filter(s[i + 1..], p), read, failure);
  }

  /** ... already at that element. */
  lemma ReadFilteredPanicHere<R, A>(s: seq<R>, i: int, p: R -> bool, read: R -> Option<A>, failure: string)
    requires 0 <= i < |s| && ReadAll(Filter(s[..i], p), read, failure).Ok?
    requires p(s[i]) && read(s[i]).None?
    ensures ReadAll(Filter(s[..i + 1], p), read, failure) == Panic(failure)
  {
    assert s[..i + 1] == s[..i] + [s[i]];
    FilterSnoc(s[..i], s[i], p);
    ReadAllSnoc(Filter(s[..i], p), s[i], read, failure);
  }

  /** Replacing by key (delete the rows where `p` holds, with `q` its
      negation, then append `x`, which has the key): exactly one row
      carries the key afterwards, `x`. */
  lemma ReplaceLeavesOne<T>(s: seq<T>, x: T, p: T -> bool, q: T -> bool)
    requires forall y :: q(y) <==> !p(y)
    requires p(x)
    ensures Filter(Filter(s, q) + [x], p) == [x]
  {
    FilterConcat(Filter(s, q), [x], p);
    FilterDisjoint(s, q, p);
    assert Filter([x], p) == [x] + Filter([x][1..], p);
  }

  /** Replacing by key leaves the rows of any other key `o` as they were. */
  lemma ReplaceKeepsOthers<T>(s: seq<T>, x: T, q: T -> bool, o: T -> bool)
    requires forall y :: o(y) ==> q(y)
    requires !o(x)
    ensures Filter(Filter(s, q) + [x], o) == Filter(s, o)
  {
    FilterConcat(Filter(s, q), [x], o);
    FilterStronger(s, q, o);
    assert Filter([x], o) == [] + Filter([x][1..], o);
  }

  /** Replacing by key twice is replacing once with the second row. */
  lemma ReplaceTwice<T>(s: seq<T>, x: T, y: T, q: T -> bool)
    requires !q(x)
    ensures Filter(Filter(s, q) + [x], q) + [y] == Filter(s, q) + [y]
  {
    FilterConcat(Filter(s, q), [x], q);
    FilterWeaker(s, q, q);
    assert Filter([x], q) == [] + Filter([x][1..], q);
  }

  /** Collecting row results into a vector with `?`, as
      `for row in mapped_rows { accounts.push(row?); }` does: the first row
      whose reading is not `Ok` decides the answer. */
  function Collect<R, A>(rows: seq<R>, read: R -> Outcome<A>): (r: Outcome<seq<A>>)
    ensures r.Ok? ==> |r.value| == |rows|
  {
    if rows == [] then Ok([])
    else
      var init := Collect(rows[..|rows| - 1], read);
      match init
      case Ok(values) =>
        (match read(rows[|rows| - 1])
         case Ok(v) => Ok(values + [v])
         case Err(m) => Err(m)
         case Panic(m) => Panic(m))
      case _ => init
  }

  /** The failure `?` passes on, at the type of the collection. */
  function Failure<A, B>(o: Outcome<A>): (r: Outcome<B>)
    requires !o.Ok?
    ensures !r.Ok? && (r.Err? <==> o.Err?) && r.message == o.message
  {
    match o
    case Err(m) => Err(m)
    case Panic(m) => Panic(m)
  }

  /** Collecting one more row. */
  lemma CollectSnoc<R, A>(rows: seq<R>, x: R, read: R -> Outcome<A>)
    ensures Collect(rows + [x], read)
         == if !Collect(rows, read).Ok? then Collect(rows, read)
            else if read(x).Ok? then Ok(Collect(rows, read).value + [read(x).value])
            else Failure(read(x))
  {
    assert (rows + [x])[..|rows + [x]| - 1] == rows;
  }

  /** A collection succeeds iff every row reads, and then holds each row's
      value in row order; otherwise it is the failure of the first row that
      does not read. */
  lemma {:induction false} CollectValues<R, A>(rows: seq<R>, read: R -> Outcome<A>)
    ensures Collect(rows, read).Ok? <==> forall k :: 0 <= k < |rows| ==> read(rows[k]).Ok?
    ensures Collect(rows, read).Ok? ==> forall k :: 0 <= k < |rows| ==> read(rows[k]) == Ok(Collect(rows, read).value[k])
    ensures !Collect(rows, read).Ok? ==>
      exists k :: 0 <= k < |rows| && !read(rows[k]).Ok? && (forall j :: 0 <= j < k ==> read(rows[j]).Ok?)
                  && Collect(rows, read) == Failure(read(rows[k]))
  {
    if rows != [] {
      var init := rows[..|rows| - 1];
      CollectValues(init, read);
      assert forall k :: 0 <= k < |rows| - 1 ==> init[k] == rows[k];
      assert rows == init + [rows[|rows| - 1]];
      CollectSnoc(init, rows[|rows| - 1], read);
    }
  }

  /** Once a collection has failed, more rows do not change the answer. */
  lemma {:induction false} CollectFailureStays<R, A>(a: seq<R>, b: seq<R>, read: R -> Outcome<A>)
    requires !Collect(a, read).Ok?
    ensures Collect(a + b, read) == Collect(a, read)
  {
    if b != [] {
      var c := b[..|b| - 1];
      CollectFailureStays(a, c, read);
      assert a + b == (a + c) + [b[|b| - 1]];
      CollectSnoc(a + c, b[|b| - 1], read);
    } else {
      assert a + b == a;
    }
  }

  /** Selecting rows keeps a successful collection successful: every
      selected row is one that read. */
  lemma {:induction false} CollectOfFiltered<R, A>(rows: seq<R>, q: R -> bool, read: R -> Outcome<A>)
    requires Collect(rows, read).Ok?
    ensures Collect(Filter(rows, q), read).Ok?
  {
    if rows != [] {
      var init := rows[..|rows| - 1];
      var x := rows[|rows| - 1];
      assert rows == init + [x];
      CollectSnoc(init, x, read);
      CollectOfFiltered(init, q, read);
      FilterSnoc(init, x, q);
      CollectSnoc(Filter(init, q), x, read);
      if !q(x) {
        assert Filter(init, q) + [] == Filter(init, q);
      }
    }
  }

  /** One step of a loop that collects the matching elements of `s`. */
  lemma CollectFilteredStep<R, A>(s: seq<R>, i: int, p: R -> bool, read: R -> Outcome<A>, values: seq<A>)
    requires 0 <= i < |s| && Collect(Filter(s[..i], p), read) == Ok(values)
    requires p(s[i]) ==> read(s[i]).Ok?
    ensures Collect(Filter(s[..i + 1], p), read) == Ok(if p(s[i]) then values + [read(s[i]).value] else values)
  {
    assert s[..i + 1] == s[..i] + [s[i]];
    FilterSnoc(s[..i], s[i], p);
    CollectSnoc(Filter(s[..i], p), s[i], read);
    if !p(s[i]) {
      assert Filter(s[..i + 1], p) == Filter(s[..i], p);
    }
  }

  /** The loop meets a matching element that does not read: its failure is
      the answer of the whole collection. */
  lemma CollectFilteredStop<R, A>(s: seq<R>, i: int, p: R -> bool, read: R -> Outcome<A>)
    requires 0 <= i < |s| && Collect(Filter(s[..i], p), read).Ok?
    requires p(s[i]) && !read(s[i]).Ok?
    ensures Collect(Filter(s, p), read) == Failure(read(s[i]))
  {
    SplitAround(s, i);
    CollectStopsAt(s[..i], s[i], s[i + 1..], p, read);
  }

  lemma SplitAround<T>(s: seq<T>, i: int)
    requires 0 <= i < |s|
    ensures s == s[..i] + [s[i]] + s[i + 1..]
  {
  }

  lemma CollectStopsAt<R, A>(t: seq<R>, x: R, u: seq<R>, p: R -> bool, read: R -> Outcome<A>)
    requires Collect(Filter(t, p), read).Ok?
    requires p(x) && !read(x).Ok?
    ensures Collect(Filter(t + [x] + u, p), read) == Failure(read(x))
  {
    FilterSnoc(t, x, p);
    CollectSnoc(Filter(t, p), x, read);
    FilterConcat(t + [x], u, p);
    CollectFailureStays(Filter(t + [x], p), Filter(u, p), read);
  }

  /** Exactly the matching elements are selected, as a statement about membership. */
  lemma SelectedIff<T>(s: seq<T>, p: T -> bool)
    ensures forall x :: x in Filter(s, p) <==> x in s && p(x)
  {
    FilterMembers(s, p);
    forall x | x in s && p(x) ensures x in Filter(s, p) {
      var i :| 0 <= i < |s| && s[i] == x;
    }
  }

  /** Collecting two runs of rows one after the other gives the values of
      the first run followed by those of the second. */
  lemma {:induction false} CollectConcat<R, A>(a: seq<R>, b: seq<R>, read: R -> Outcome<A>)
    requires Collect(a + b, read).Ok?
    ensures Collect(a, read).Ok? && Collect(b, read).Ok?
    ensures Collect(a + b, read).value == Collect(a, read).value + Collect(b, read).value
  {
    if b == [] {
      assert a + b == a;
      if !Collect(a, read).Ok? { CollectFailureStays(a, b, read); }
    } else {
      var c := b[..|b| - 1];
      var x := b[|b| - 1];
      assert a + b == (a + c) + [x];
      assert b == c + [x];
      CollectSnoc(a + c, x, read);
      CollectConcat(a, c, read);
      CollectSnoc(c, x, read);
    }
  }

  /** Indexing a sequence with one element appended. */
  lemma SnocIndex<T>(a: seq<T>, x: T, k: int)
    requires 0 <= k <= |a|
    ensures (a + [x])[k] == if k < |a| then a[k] else x
  {
  }

  /** A prefix of a prefix. */
  lemma PrefixOfPrefix<T>(s: seq<T>, n: int, m: int)
    requires 0 <= m <= n <= |s|
    ensures s[..n][..m] == s[..m]
  {
  }
}
