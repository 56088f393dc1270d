/** Small shared vocabulary: optional values, results, and facts about sequences. */
module Common {

  datatype Option<+T> = None | Some(value: T)

  datatype Result<+T, +E> = Ok(value: T) | Err(error: E)

  function Min(a: int, b: int): int {
    if a < b then a else b
  }

  function Max(a: int, b: int): int {
    if a < b then b else a
  }

  /** Clamps a requested bound into `1..=most`, as every cursor and budget builder does. */
  function Clamp(requested: nat, most: nat): (r: nat)
    requires 1 <= most
    ensures 1 <= r <= most
    ensures 1 <= requested <= most ==> r == requested
  {
    if requested < 1 then 1 else if requested > most then most else requested
  }

  ghost function ToSet<T>(s: seq<T>): set<T> {
    set x | x in s
  }

  ghost predicate Distinct<T>(s: seq<T>) {
    forall i, j :: 0 <= i < j < |s| ==> s[i] != s[j]
  }

  ghost predicate StrictlyAscending(s: seq<int>) {
    forall i, j :: 0 <= i < j < |s| ==> s[i] < s[j]
  }

  /** All elements but one. */
  function Without<T>(s: seq<T>, at: nat): seq<T>
    requires at < |s|
  {
    s[..at] + s[at + 1..]
  }

  /** At most the first `n` elements. */
  function Take<T>(s: seq<T>, n: nat): seq<T> {
    if |s| <= n then s else s[..n]
  }

  lemma SetMember(s: set<int>)
    ensures s == {} || exists x :: x in s
  {
    if forall x :: x !in s {
      assert s == {};
    }
  }

  /** A set of integers with a member has a least one. */
  lemma {:induction false} LeastExists(s: set<int>, y: int)
    requires y in s
    ensures exists m :: m in s && forall x :: x in s ==> m <= x
    decreases |s|
  {
    if z :| z in s && z < y {
      var rest := s - {y};
      LeastExists(rest, z);
      var m :| m in rest && forall x :: x in rest ==> m <= x;
      assert s == rest + {y};
      assert m in s && forall x :: x in s ==> m <= x;
    } else {
      assert y in s && forall x :: x in s ==> y <= x;
    }
  }

  /** The least element of a nonempty set. */
  ghost function Least(s: set<int>): (m: int)
    requires s != {}
    ensures m in s && forall x :: x in s ==> m <= x
  {
    SetMember(s);
    var y :| y in s;
    LeastExists(s, y);
    var m :| m in s && forall x :: x in s ==> m <= x;
    m
  }

  /** The elements of a set in ascending order: the iteration order of an ordered set. */
  ghost function Sorted(s: set<int>): (r: seq<int>)
    decreases |s|
  {
    if s == {} then [] else [Least(s)] + Sorted(s - {Least(s)})
  }

  lemma {:induction false} SortedMember(s: set<int>, x: int)
    ensures x in Sorted(s) <==> x in s
    decreases |s|
  {
    if s != {} {
      var m := Least(s);
      SortedMember(s - {m}, x);
      var rest := Sorted(s - {m});
      assert x in [m] + rest <==> x == m || x in rest;
    }
  }

  lemma {:induction false} SortedAscending(s: set<int>)
    ensures StrictlyAscending(Sorted(s))
    decreases |s|
  {
    if s != {} {
      var m := Least(s);
      SortedAscending(s - {m});
      var rest := Sorted(s - {m});
      forall i | 0 <= i < |rest| ensures m < rest[i] {
        assert rest[i] in rest;
        SortedMember(s - {m}, rest[i]);
      }
    }
  }

  lemma SortedSet(s: set<int>)
    ensures ToSet(Sorted(s)) == s
  {
    forall x ensures x in ToSet(Sorted(s)) <==> x in s {
      SortedMember(s, x);
    }
  }

  /** Finds the least element, as an ordered set's iterator does. */
  method Smallest(s: set<int>) returns (m: int)
    requires s != {}
    ensures m == Least(s)
  {
    SetMember(s);
    m :| m in s;
    var rest := s - {m};
    while rest != {}
      invariant m in s && rest <= s
      invariant forall x :: x in s ==> x in rest || m <= x
      decreases |rest|
    {
      SetMember(rest);
      var y :| y in rest;
      rest := rest - {y};
      m := Min(m, y);
    }
  }

  lemma ToSetConcat<T>(a: seq<T>, b: seq<T>)
    ensures ToSet(a + b) == ToSet(a) + ToSet(b)
  {
  }

  lemma UnionDifference<T>(a: set<T>, b: set<T>)
    requires a <= b
    ensures a + (b - a) == b
  {
  }

  lemma DistinctAppend<T>(s: seq<T>, x: T)
    requires Distinct(s + [x])
    ensures Distinct(s) && x !in s
  {
    forall i, j | 0 <= i < j < |s| ensures s[i] != s[j] {
      assert (s + [x])[i] == s[i] && (s + [x])[j] == s[j];
    }
    forall i | 0 <= i < |s| ensures s[i] != x {
      assert (s + [x])[i] == s[i] && (s + [x])[|s|] == x;
    }
  }
}
