/** The fragment of SQLite that the work queue's statements rely on: nullable
    columns, three-valued conditions, and set-level UPDATE statements.

    A condition is True, False or Null. A comparison with a NULL operand is Null,
    and a WHERE clause keeps a row only when its condition is True. */
module Sql {
  import opened Wrappers

  datatype Tri = True | False | Null

  function Truth(b: bool): Tri {
    if b then True else False
  }

  /** What a WHERE clause asks of a condition. */
  predicate Holds(t: Tri) {
    t == True
  }

  function And(a: Tri, b: Tri): Tri {
    if a == False || b == False then False
    else if a == Null || b == Null then Null
    else True
  }

  function Or(a: Tri, b: Tri): Tri {
    if a == True || b == True then True
    else if a == Null || b == Null then Null
    else False
  }

  function Not(a: Tri): Tri {
    match a
    case True => False
    case False => True
    case Null => Null
  }

  function IsNull<T>(x: Option<T>): Tri {
    Truth(x.None?)
  }

  function Eq<T(==)>(x: Option<T>, y: Option<T>): Tri {
    if x.None? || y.None? then Null else Truth(x.value == y.value)
  }

  function Le(x: Option<int>, y: int): Tri {
    if x.None? then Null else Truth(x.value <= y)
  }

  function Gt(x: Option<int>, y: int): Tri {
    if x.None? then Null else Truth(x.value > y)
  }

  /** `x IN (list)`, for a list of literals. */
  function In<T(==)>(x: Option<T>, list: set<T>): Tri {
    if x.None? then Null else Truth(x.value in list)
  }

  /** The positions whose row satisfies the WHERE clause; `changes` is how many there are. */
  function Matching<R>(rows: seq<R>, where: (nat, R) -> Tri): set<nat> {
    set i: nat | i < |rows| && Holds(where(i, rows[i]))
  }

  /** `UPDATE rows SET assign WHERE where`. */
  function Update<R>(rows: seq<R>, where: (nat, R) -> Tri, assign: R -> R): (out: seq<R>)
    ensures |out| == |rows|
    ensures forall i: nat :: i < |rows| ==>
              out[i] == if i in Matching(rows, where) then assign(rows[i]) else rows[i]
  {
    seq(|rows|, i requires 0 <= i < |rows| =>
          if Holds(where(i, rows[i])) then assign(rows[i]) else rows[i])
  }

  /** An UPDATE whose WHERE clause pins the primary key changes that row or nothing. */
  lemma UpdateOne<R>(rows: seq<R>, where: (nat, R) -> Tri, assign: R -> R, id: nat)
    requires forall i: nat :: i < |rows| && Holds(where(i, rows[i])) ==> i == id
    ensures id < |rows| && Holds(where(id, rows[id])) ==>
              && Update(rows, where, assign) == rows[id := assign(rows[id])]
              && |Matching(rows, where)| == 1
    ensures !(id < |rows| && Holds(where(id, rows[id]))) ==>
              && Update(rows, where, assign) == rows
              && |Matching(rows, where)| == 0
  {
    if id < |rows| && Holds(where(id, rows[id])) {
      assert Matching(rows, where) == {id};
    } else {
      assert Matching(rows, where) == {};
    }
  }
}
