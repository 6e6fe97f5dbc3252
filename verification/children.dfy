/** The operations the engine applies to its root pane's list of children, with the list
    semantics of the UI toolkit: removal takes out the first occurrence, moving a node to
    the front removes it and appends it again, and a node appears at most once. */
module Children {

  /** No node appears twice. */
  ghost predicate Distinct<T>(s: seq<T>)
  {
    forall i, j :: 0 <= i < j < |s| ==> s[i] != s[j]
  }

  /** Adding `c` at index 0 (`atBottom`) or at the end. */
  function Insert<T>(s: seq<T>, c: T, atBottom: bool): (r: seq<T>)
    ensures |r| == |s| + 1
    ensures atBottom ==> r[0] == c && r[1..] == s
    ensures !atBottom ==> r[|s|] == c && r[..|s|] == s
  {
    if atBottom then [c] + s else s + [c]
  }

  /** The list with the first occurrence of `x` taken out; unchanged if `x` is absent. */
  function Remove<T(==)>(s: seq<T>, x: T): (r: seq<T>)
    ensures x !in s ==> r == s
    ensures x in s ==> |r| == |s| - 1
    decreases |s|
  {
    if s == [] then []
    else if s[0] == x then s[1..]
    else [s[0]] + Remove(s[1..], x)
  }

  /** Moving `x` to the front of the stacking order: the last position. Nothing happens
      when `x` is not a child. */
  function ToFront<T(==)>(s: seq<T>, x: T): (r: seq<T>)
    ensures x !in s ==> r == s
    ensures x in s ==> |r| == |s| && r[|r| - 1] == x
  {
    if x in s then Remove(s, x) + [x] else s
  }

  /** Insertion adds exactly `c`. */
  lemma InsertMember<T>(s: seq<T>, c: T, atBottom: bool, y: T)
    ensures y in Insert(s, c, atBottom) <==> y in s || y == c
  {
    if y in Insert(s, c, atBottom) && y != c {
      var i :| 0 <= i < |Insert(s, c, atBottom)| && Insert(s, c, atBottom)[i] == y;
      assert y == if atBottom then s[i - 1] else s[i];
    }
  }

  /** Inserting an absent node keeps a list without repeats so. */
  lemma InsertDistinct<T>(s: seq<T>, c: T, atBottom: bool)
    requires Distinct(s) && c !in s
    ensures Distinct(Insert(s, c, atBottom))
  {
    var r := Insert(s, c, atBottom);
    forall i, j | 0 <= i < j < |r| ensures r[i] != r[j] {
      if atBottom {
        assert r[j] == s[j - 1];
        if i > 0 {
          assert r[i] == s[i - 1];
        }
      } else {
        assert r[i] == s[i];
        if j < |s| {
          assert r[j] == s[j];
        }
      }
    }
  }

  /** Removal takes out `x` and nothing else. */
  lemma {:induction false} RemoveMember<T>(s: seq<T>, x: T, y: T)
    ensures y in Remove(s, x) ==> y in s
    ensures y in s && y != x ==> y in Remove(s, x)
    decreases |s|
  {
    if s != [] && s[0] != x {
      RemoveMember(s[1..], x, y);
      assert s == [s[0]] + s[1..];
    }
  }

  /** Removal keeps a list without repeats so, with no `x` left in it. */
  lemma {:induction false} RemoveDistinct<T>(s: seq<T>, x: T)
    requires Distinct(s)
    ensures Distinct(Remove(s, x)) && x !in Remove(s, x)
    decreases |s|
  {
    if s != [] {
      DistinctTail(s);
      if s[0] != x {
        RemoveDistinct(s[1..], x);
        RemoveMember(s[1..], x, s[0]);
        ConsDistinct(s[0], Remove(s[1..], x));
      }
    }
  }

  /** Moving to the front keeps the same nodes. */
  lemma ToFrontMember<T>(s: seq<T>, x: T, y: T)
    ensures y in ToFront(s, x) <==> y in s
  {
    RemoveMember(s, x, y);
  }

  /** Moving to the front keeps a list without repeats so. */
  lemma ToFrontDistinct<T>(s: seq<T>, x: T)
    requires Distinct(s)
    ensures Distinct(ToFront(s, x))
  {
    if x in s {
      RemoveDistinct(s, x);
      var rest := Remove(s, x);
      forall i, j | 0 <= i < j < |rest + [x]| ensures (rest + [x])[i] != (rest + [x])[j] {
        if j == |rest| {
          assert (rest + [x])[i] == rest[i];
        } else {
          assert (rest + [x])[i] == rest[i] && (rest + [x])[j] == rest[j];
        }
      }
    }
  }

  /** The tail of a list without repeats has none, and does not hold the head. */
  lemma DistinctTail<T>(s: seq<T>)
    requires Distinct(s) && s != []
    ensures Distinct(s[1..]) && s[0] !in s[1..]
  {
    forall i, j | 0 <= i < j < |s[1..]| ensures s[1..][i] != s[1..][j] {
      assert s[1..][i] == s[i + 1] && s[1..][j] == s[j + 1];
    }
  }

  lemma ConsDistinct<T>(a: T, t: seq<T>)
    requires Distinct(t) && a !in t
    ensures Distinct([a] + t)
  {
    forall i, j | 0 <= i < j < |[a] + t| ensures ([a] + t)[i] != ([a] + t)[j] {
      if i == 0 {
        assert ([a] + t)[j] == t[j - 1];
      } else {
        assert ([a] + t)[i] == t[i - 1] && ([a] + t)[j] == t[j - 1];
      }
    }
  }

  /** Moving the same node to the front twice is the same as once. */
  lemma ToFrontIdempotent<T>(s: seq<T>, x: T)
    requires Distinct(s)
    ensures ToFront(ToFront(s, x), x) == ToFront(s, x)
  {
    if x in s {
      RemoveDistinct(s, x);
      RemoveLast(Remove(s, x), x);
    }
  }

  /** Taking out the node that was just appended gives back the list it was appended to. */
  lemma {:induction false} RemoveLast<T>(s: seq<T>, x: T)
    requires x !in s
    ensures Remove(s + [x], x) == s
    decreases |s|
  {
    if s != [] {
      assert (s + [x])[1..] == s[1..] + [x];
      RemoveLast(s[1..], x);
    }
  }

  /** In a list without repeats, removal takes out exactly the node's position. */
  lemma {:induction false} RemoveAt<T>(s: seq<T>, i: nat)
    requires Distinct(s) && i < |s|
    ensures Remove(s, s[i]) == s[..i] + s[i + 1..]
    decreases i
  {
    if i > 0 {
      DistinctTail(s);
      assert s[0] != s[i];
      RemoveAt(s[1..], i - 1);
      assert s[1..][i - 1] == s[i];
      assert [s[0]] + (s[1..][..i - 1] + s[1..][i..]) == s[..i] + s[i + 1..];
    }
  }

  /** Removing a node found before an appended tail leaves the tail in place. */
  lemma {:induction false} RemoveBeforeTail<T>(s: seq<T>, t: seq<T>, x: T)
    requires x in s
    ensures Remove(s + t, x) == Remove(s, x) + t
    decreases |s|
  {
    if s[0] != x {
      assert (s + t)[1..] == s[1..] + t;
      RemoveBeforeTail(s[1..], t, x);
    }
  }

  /** Removing a node other than the top one keeps the top node on top. */
  lemma RemoveKeepsTop<T>(s: seq<T>, x: T)
    requires s != [] && s[|s| - 1] != x
    ensures var r := Remove(s, x); r != [] && r[|r| - 1] == s[|s| - 1]
  {
    var top := s[|s| - 1];
    if x in s {
      assert s == s[..|s| - 1] + [top];
      assert x in s[..|s| - 1];
      RemoveBeforeTail(s[..|s| - 1], [top], x);
    }
  }

  /** Moving another node to the front keeps the bottom node at the bottom. */
  lemma ToFrontKeepsBottom<T>(s: seq<T>, x: T)
    requires s != [] && s[0] != x
    ensures ToFront(s, x)[0] == s[0]
  {
  }

  /** After appending `c`, moving another node to the front leaves `c` on top, or right
      under that node. */
  lemma ToFrontAfterAppend<T>(s: seq<T>, c: T, x: T)
    requires c != x
    ensures var r := ToFront(s + [c], x);
            r[|r| - 1] == c || (|r| >= 2 && r[|r| - 1] == x && r[|r| - 2] == c)
  {
    if x in s {
      RemoveBeforeTail(s, [c], x);
    }
  }
}
