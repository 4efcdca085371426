/** The optional value. */
module Options {
  datatype Option<+T> = None | Some(value: T)
}

/** Sizes of finite sets. */
module Sets {
  // A map onto another set that keeps elements apart: both sets have as many elements.
  lemma SameSize<T, U>(rows: set<T>, images: set<U>, f: T -> U)
    requires forall x :: x in rows ==> f(x) in images
    requires forall r :: r in images ==> exists x :: x in rows && f(x) == r
    requires forall x, y :: x in rows && y in rows && f(x) == f(y) ==> x == y
    ensures |rows| == |images|
  {
    if rows == {} {
      assert images == {};
    } else {
      var x :| x in rows;
      forall r | r in images - {f(x)} ensures exists y :: y in rows - {x} && f(y) == r {
        var y :| y in rows && f(y) == r;
      }
      SameSize(rows - {x}, images - {f(x)}, f);
    }
  }

  lemma TwoElements<T>(s: set<T>, x: T, y: T)
    requires x in s && y in s && x != y
    ensures |s| >= 2
  {
    assert |s - {x}| == |s| - 1 && y in s - {x};
  }

  lemma SizeTells<T>(s: set<T>)
    ensures |s| == 0 <==> s == {}
    ensures |s| == 1 <==> exists x :: s == {x}
    ensures |s| >= 2 <==> exists x, y :: x != y && x in s && y in s
  {
    if s != {} {
      var x :| x in s;
      if s - {x} == {} {
        assert s == {x};
      } else {
        var y :| y in s - {x};
        TwoElements(s, x, y);
      }
    }
  }
}

/** Primary keys. */
module Keys {
  // A new row gets a key above all others.
  function NextId(ids: seq<int>): (id: int)
    ensures forall i :: 0 <= i < |ids| ==> ids[i] < id
  {
    if ids == [] then 1
    else
      var rest, last := NextId(ids[..|ids| - 1]), ids[|ids| - 1];
      if rest > last then rest else last + 1
  }
}
