/** Values shared by every component of the archive model. */
module Common {

  datatype Option<+T> = None | Some(value: T)

  datatype Result<+T, +E> = Ok(value: T) | Err(error: E)
}

/** Ordered enumeration of finite sets: what iterating a `BTreeSet` or an `order by` query yields. */
module Ordered {

  predicate StrictlyAscending(s: seq<nat>) {
    forall i, j :: 0 <= i < j < |s| ==> s[i] < s[j]
  }

  function Elements<T>(s: seq<T>): set<T> {
    set x | x in s
  }

  predicate IsLeast(s: set<nat>, m: nat) {
    m in s && forall x | x in s :: m <= x
  }

  lemma {:induction false} LeastExists(s: set<nat>) returns (m: nat)
    requires s != {}
    ensures IsLeast(s, m)
  {
    m :| m in s;
    var rest := s - {m};
    assert forall x | x in s :: x == m || x in rest;
    if rest != {} {
      var k := LeastExists(rest);
      if k < m { m := k; }
    }
  }

  function Least(s: set<nat>): (m: nat)
    requires s != {}
    ensures m in s && forall x | x in s :: m <= x
  {
    assert exists m :: m in s && IsLeast(s, m) by { var m := LeastExists(s); }
    var m :| m in s && IsLeast(s, m);
    m
  }

  /** The elements of `s` in ascending order, each once. */
  function Sorted(s: set<nat>): (r: seq<nat>)
    ensures StrictlyAscending(r)
    ensures Elements(r) == s
  {
    if s == {} then []
    else
      var m := Least(s);
      var rest := Sorted(s - {m});
      assert Elements([m] + rest) == {m} + Elements(rest);
      assert forall x | x in rest :: x in Elements(rest);
      [m] + rest
  }

  /** The first `i` of an ascending sequence are those below its element `i`. */
  lemma BelowIsPrefix(s: seq<nat>, i: nat)
    requires StrictlyAscending(s) && i < |s|
    ensures Elements(s[..i]) == set x | x in Elements(s) && x < s[i]
  {
    forall x | x in Elements(s) && x < s[i]
      ensures x in Elements(s[..i])
    {
      var j :| 0 <= j < |s| && s[j] == x;
      assert s[..i][j] == x;
    }
  }

  lemma NonEmpty<T>(s: seq<T>)
    ensures s != [] <==> Elements(s) != {}
  {
    if s != [] { assert s[0] in Elements(s); }
  }

  /** Ascending enumeration is unique, so any two ways to enumerate one set agree. */
  lemma {:induction false} AscendingUnique(a: seq<nat>, b: seq<nat>)
    requires StrictlyAscending(a) && StrictlyAscending(b)
    requires Elements(a) == Elements(b)
    ensures a == b
  {
    NonEmpty(a);
    NonEmpty(b);
    if a != [] {
      assert b[0] in Elements(a) && a[0] in Elements(b);
      assert a[0] == b[0];
      assert Elements(a[1..]) == Elements(a) - {a[0]} by {
        assert a == [a[0]] + a[1..];
      }
      assert Elements(b[1..]) == Elements(b) - {b[0]} by {
        assert b == [b[0]] + b[1..];
      }
      AscendingUnique(a[1..], b[1..]);
    }
  }
}
