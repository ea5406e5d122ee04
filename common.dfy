/** Small helpers shared by the inventory and billing modules. */
module Common {

  /** A value or nothing: Python's `None` where the source returns an object or `None`,
      and an omitted optional argument. */
  datatype Option<+T> = None | Some(value: T)

  /** The elements of `s` that satisfy `keep`, in their original order: what a Python
      loop produces that walks a sequence and appends every element it keeps to a
      fresh list. Defined from the last element so that one loop step is one unfolding. */
  function Filter<T>(s: seq<T>, keep: T -> bool): seq<T>
  {
    if s == [] then [] else Filter(s[..|s| - 1], keep) + (if keep(s[|s| - 1]) then [s[|s| - 1]] else [])
  }

  /** Filtering keeps exactly the elements that satisfy the predicate. */
  lemma {:induction false} FilterMembership<T>(s: seq<T>, keep: T -> bool, x: T)
    ensures x in Filter(s, keep) <==> x in s && keep(x)
  {
    if s != [] {
      var init := s[..|s| - 1];
      FilterMembership(init, keep, x);
      assert s == init + [s[|s| - 1]];
    }
  }

  /** Filtering distributes over concatenation, so it never reorders what it keeps. */
  lemma {:induction false} FilterAppend<T>(a: seq<T>, b: seq<T>, keep: T -> bool)
    ensures Filter(a + b, keep) == Filter(a, keep) + Filter(b, keep)
  {
    if b == [] {
      assert a + b == a;
    } else {
      var init := b[..|b| - 1];
      assert (a + b)[..|a + b| - 1] == a + init;
      FilterAppend(a, init, keep);
    }
  }

  /** A filter that rejects nothing returns its input. */
  lemma {:induction false} FilterKeepsAll<T>(s: seq<T>, keep: T -> bool)
    requires forall i :: 0 <= i < |s| ==> keep(s[i])
    ensures Filter(s, keep) == s
  {
    if s != [] {
      FilterKeepsAll(s[..|s| - 1], keep);
    }
  }

  /** Two predicates that agree on every element of `s` filter it alike. */
  lemma {:induction false} FilterAgrees<T>(s: seq<T>, keep: T -> bool, keep': T -> bool)
    requires forall i :: 0 <= i < |s| ==> keep(s[i]) == keep'(s[i])
    ensures Filter(s, keep) == Filter(s, keep')
  {
    if s != [] {
      FilterAgrees(s[..|s| - 1], keep, keep');
    }
  }

  /** A filter that rejects exactly the element at `j` cuts that position out. */
  lemma FilterDropsOne<T>(s: seq<T>, j: nat, keep: T -> bool)
    requires j < |s| && !keep(s[j])
    requires forall i :: 0 <= i < |s| && i != j ==> keep(s[i])
    ensures Filter(s, keep) == s[..j] + s[j + 1..]
  {
    var before, after := s[..j], s[j + 1..];
    var left := before + [s[j]];
    assert Filter(after, keep) == after by {
      FilterKeepsAll(after, keep);
    }
    assert Filter(left, keep) == before by {
      FilterAppend(before, [s[j]], keep);
      assert Filter([s[j]], keep) == [] by {
        assert [s[j]][..0] == [];
      }
      FilterKeepsAll(before, keep);
    }
    assert Filter(s, keep) == Filter(left, keep) + Filter(after, keep) by {
      assert s == left + after;
      FilterAppend(left, after, keep);
    }
  }

  /** A prefix one element longer is the shorter prefix and that element. */
  lemma TakeOneMore<T>(s: seq<T>, i: nat)
    requires i < |s|
    ensures s[..i + 1] == s[..i] + [s[i]]
  {
  }

  /** No element occurs twice in `s`. */
  predicate Distinct<T(==)>(s: seq<T>)
  {
    forall i, j :: 0 <= i < j < |s| ==> s[i] != s[j]
  }

  /** Cutting position `j` out of a sequence without repetitions: every other element
      moves down past the gap, nothing repeats, and exactly `s[j]` is gone. */
  lemma {:induction false} CutDistinct<T>(s: seq<T>, j: nat)
    requires j < |s| && Distinct(s)
    ensures var t := s[..j] + s[j + 1..];
      && |t| == |s| - 1
      && (forall i :: 0 <= i < |t| ==> t[i] == s[if i < j then i else i + 1])
      && Distinct(t)
      && forall x :: x in t <==> x in s && x != s[j]
  {
    var t := s[..j] + s[j + 1..];
    assert forall i :: 0 <= i < |t| ==> t[i] == s[if i < j then i else i + 1];
    forall x | x in s && x != s[j]
      ensures x in t
    {
      var m :| 0 <= m < |s| && s[m] == x;
      assert t[if m < j then m else m - 1] == x;
    }
  }

  /** A sequence that holds the elements of `s` except the one at `j`, in order, is
      `s` with position `j` cut out. */
  lemma SpliceAt<T>(s: seq<T>, t: seq<T>, j: nat)
    requires j < |s| && |t| == |s| - 1
    requires forall i :: 0 <= i < |t| ==> t[i] == s[if i < j then i else i + 1]
    ensures t == s[..j] + s[j + 1..]
  {
  }

  /** The position of the first occurrence of `x` in `s`. */
  function IndexOf<T(==)>(s: seq<T>, x: T): (i: nat)
    requires x in s
    ensures i < |s| && s[i] == x && x !in s[..i]
  {
    if s[0] == x then 0 else 1 + IndexOf(s[1..], x)
  }
}
