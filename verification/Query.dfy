/** ORDER BY ... LIMIT over the rows no other transaction has locked. */
module Query {

  ghost predicate Preorder<T(!new)>(before: (T, T) -> bool) {
    && (forall x, y :: before(x, y) || before(y, x))
    && (forall x, y, z :: before(x, y) && before(y, z) ==> before(x, z))
  }

  /** As many rows as the limit allows, none behind a row left out. Which of two equal
      rows is taken stays open, as the database leaves it. */
  ghost predicate IsTop<T(!new)>(avail: set<T>, limit: int, before: (T, T) -> bool, picked: set<T>) {
    && picked <= avail
    && |picked| == (if limit < 0 then 0 else if limit < |avail| then limit else |avail|)
    && forall x, y :: x in picked && y in avail && y !in picked ==> before(x, y)
  }

  /** The rows in the order asked for, each once. */
  ghost predicate Listed<T(!new)>(rows: seq<T>, picked: set<T>, before: (T, T) -> bool) {
    && |rows| == |picked|
    && (forall x :: x in rows <==> x in picked)
    && forall i, j :: 0 <= i < j < |rows| ==> rows[i] != rows[j] && before(rows[i], rows[j])
  }

  method First<T(==,!new)>(s: set<T>, before: (T, T) -> bool) returns (best: T)
    requires s != {} && Preorder(before)
    ensures best in s && forall y :: y in s ==> before(best, y)
  {
    best :| best in s;
    var rest := s - {best};
    while rest != {}
      invariant rest <= s && best in s && forall y :: y in s && y !in rest ==> before(best, y)
      decreases |rest|
    {
      var x :| x in rest;
      if !before(best, x) { best := x; }
      rest := rest - {x};
    }
  }

  method Top<T(==,!new)>(avail: set<T>, limit: int, before: (T, T) -> bool) returns (rows: seq<T>, ghost picked: set<T>)
    requires Preorder(before)
    ensures IsTop(avail, limit, before, picked) && Listed(rows, picked, before)
  {
    rows := [];
    picked := {};
    var rest := avail;
    while |rows| < limit && rest != {}
      invariant rest == avail - picked && picked <= avail
      invariant limit < 0 ==> rows == []
      invariant limit >= 0 ==> |rows| <= limit
      invariant forall x, y :: x in picked && y in rest ==> before(x, y)
      invariant Listed(rows, picked, before)
      decreases |rest|
    {
      var x := First(rest, before);
      rows := rows + [x];
      rest := rest - {x};
      picked := picked + {x};
    }
  }

  /** The copies to insert and the keys to delete, gathered row by row. */
  method Collect<T(==,!new), R, S>(rows: seq<T>, ghost picked: set<T>, ghost before: (T, T) -> bool,
                                   table: map<T, R>, copy: R -> S)
    returns (builders: map<T, S>, ids: set<T>)
    requires Listed(rows, picked, before) && picked <= table.Keys
    ensures ids == picked && builders == map x | x in picked :: copy(table[x])
    ensures forall i :: 0 <= i < |rows| ==> rows[i] in picked
  {
    builders, ids := map[], {};
    for i := 0 to |rows|
      invariant forall x :: x in ids <==> x in rows[..i]
      invariant builders == map x | x in ids :: copy(table[x])
    {
      builders := builders[rows[i] := copy(table[rows[i]])];
      ids := ids + {rows[i]};
    }
  }
}
