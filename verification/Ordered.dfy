/** A set of peer ids in ascending order, as an ordered set iterates over it. */
module Ordered {
  import opened Words

  function Least(s: set<u32>): (m: u32)
    requires s != {}
    ensures m in s && forall x :: x in s ==> m <= x
  {
    LeastExists(s);
    var m :| m in s && forall x :: x in s ==> m <= x;
    m
  }

  lemma LeastExists(s: set<u32>)
    requires s != {}
    ensures exists m :: m in s && forall x :: x in s ==> m <= x
  {
    var m := FindLeast(s);
  }

  lemma {:induction false} FindLeast(s: set<u32>) returns (m: u32)
    requires s != {}
    ensures m in s && forall x :: x in s ==> m <= x
    decreases |s|
  {
    var a :| a in s;
    m := a;
    var rest := s - {a};
    assert forall x :: x in s ==> x == a || x in rest;
    if rest != {} {
      var b := FindLeast(rest);
      if b < m {
        m := b;
      }
    }
  }

  function Sorted(s: set<u32>): seq<u32> {
    if s == {} then [] else [Least(s)] + Sorted(s - {Least(s)})
  }

  lemma {:induction false} SortedIsSorted(s: set<u32>)
    ensures forall x :: x in Sorted(s) <==> x in s
    ensures forall i, j :: 0 <= i < j < |Sorted(s)| ==> Sorted(s)[i] < Sorted(s)[j]
  {
    if s != {} {
      var m := Least(s);
      SortedIsSorted(s - {m});
      var rest := Sorted(s - {m});
      forall i, j | 0 <= i < j < |Sorted(s)|
        ensures Sorted(s)[i] < Sorted(s)[j]
      {
        if i == 0 {
          assert rest[j - 1] in rest;
        }
      }
    }
  }

  lemma {:induction false} SortedLength(s: set<u32>)
    ensures |Sorted(s)| == |s|
  {
    if s != {} {
      SortedLength(s - {Least(s)});
    }
  }
}
