/** Least, greatest and ascending order of finite sets of integers. */
module IntSets {
  ghost predicate IsLeast(m: int, keys: set<int>) {
    m in keys && forall k :: k in keys ==> m <= k
  }

  ghost predicate IsGreatest(m: int, keys: set<int>) {
    m in keys && forall k :: k in keys ==> k <= m
  }

  lemma {:induction false} LeastExists(keys: set<int>)
    requires keys != {}
    ensures exists m :: IsLeast(m, keys)
    decreases |keys|
  {
    var x: int :| x in keys;
    if m: int :| m in keys && m < x {
      // Nothing at or above x can be least.
      var low := set k | k in keys && k < x;
      assert m in low && x !in low && low <= keys;
      SmallerSet(low, keys, x);
      LeastExists(low);
      var least: int :| IsLeast(least, low);
      forall k | k in keys
        ensures least <= k
      {
        assert k < x ==> k in low;
      }
      assert IsLeast(least, keys);
    } else {
      assert IsLeast(x, keys);
    }
  }

  lemma {:induction false} GreatestExists(keys: set<int>)
    requires keys != {}
    ensures exists m :: IsGreatest(m, keys)
    decreases |keys|
  {
    var x: int :| x in keys;
    if m: int :| m in keys && m > x {
      var high := set k | k in keys && k > x;
      assert m in high && x !in high && high <= keys;
      SmallerSet(high, keys, x);
      GreatestExists(high);
      var greatest: int :| IsGreatest(greatest, high);
      forall k | k in keys
        ensures k <= greatest
      {
        assert k > x ==> k in high;
      }
      assert IsGreatest(greatest, keys);
    } else {
      assert IsGreatest(x, keys);
    }
  }

  lemma SmallerSet(small: set<int>, large: set<int>, x: int)
    requires small <= large && x in large && x !in small
    ensures |small| < |large|
  {
    assert large == small + (large - small) && x in large - small;
  }

  ghost function Oldest(keys: set<int>): (m: int)
    requires keys != {}
    ensures IsLeast(m, keys)
  {
    LeastExists(keys);
    var m :| IsLeast(m, keys);
    m
  }

  ghost function Newest(keys: set<int>): (m: int)
    requires keys != {}
    ensures IsGreatest(m, keys)
  {
    GreatestExists(keys);
    var m :| IsGreatest(m, keys);
    m
  }

  /** The set in ascending order. */
  ghost function Sorted(s: set<int>): seq<int>
    decreases |s|
  {
    if s == {} then [] else [Oldest(s)] + Sorted(s - {Oldest(s)})
  }

  method Ascending(s: set<int>) returns (r: seq<int>)
    ensures r == Sorted(s)
  {
    r := [];
    var rest := s;
    while rest != {}
      invariant r + Sorted(rest) == Sorted(s)
      decreases |rest|
    {
      ghost var any := Oldest(rest);
      var least: int :| least in rest && forall x :: x in rest ==> least <= x;
      assert least == any;
      r, rest := r + [least], rest - {least};
    }
  }
}
