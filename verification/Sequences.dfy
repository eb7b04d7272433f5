/** Facts about sequences that several models lean on: duplicate-freedom, the set of a sequence's
    elements, and keeping or dropping the elements that lie in a set. */
module Sequences {

  ghost predicate NoDup<T>(s: seq<T>) {
    forall i, j :: 0 <= i < j < |s| ==> s[i] != s[j]
  }

  function Elements<T(==,!new)>(s: seq<T>): (r: set<T>)
    ensures forall x :: x in r <==> x in s
  {
    set x | x in s
  }

  /** The elements of `s` that lie in `xs`, in their order. */
  function Keep<T(==,!new)>(s: seq<T>, xs: set<T>): (r: seq<T>)
    ensures forall x :: x in r <==> x in s && x in xs
    ensures |r| <= |s|
  {
    if s == [] then []
    else (if s[0] in xs then [s[0]] else []) + Keep(s[1..], xs)
  }

  /** The elements of `s` that do not lie in `xs`, in their order. */
  function Drop<T(==,!new)>(s: seq<T>, xs: set<T>): (r: seq<T>)
    ensures forall x :: x in r <==> x in s && x !in xs
    ensures |r| <= |s|
  {
    if s == [] then []
    else (if s[0] in xs then [] else [s[0]]) + Drop(s[1..], xs)
  }

  lemma {:induction false} KeepNoDup<T(!new)>(s: seq<T>, xs: set<T>)
    requires NoDup(s)
    ensures NoDup(Keep(s, xs))
  {
    if s != [] {
      KeepNoDup(s[1..], xs);
    }
  }

  lemma {:induction false} DropNoDup<T(!new)>(s: seq<T>, xs: set<T>)
    requires NoDup(s)
    ensures NoDup(Drop(s, xs))
  {
    if s != [] {
      DropNoDup(s[1..], xs);
    }
  }

  lemma {:induction false} DropNone<T(!new)>(s: seq<T>, xs: set<T>)
    requires forall x :: x in s ==> x !in xs
    ensures Drop(s, xs) == s && Keep(s, xs) == []
  {
    if s != [] {
      DropNone(s[1..], xs);
    }
  }

  lemma {:induction false} DropConcat<T(!new)>(a: seq<T>, b: seq<T>, xs: set<T>)
    ensures Drop(a + b, xs) == Drop(a, xs) + Drop(b, xs)
  {
    if a == [] {
      assert a + b == b;
    } else {
      assert (a + b)[1..] == a[1..] + b;
      DropConcat(a[1..], b, xs);
    }
  }

  /** Only which elements of `s` lie in the set matters. */
  lemma {:induction false} SameMembersSplitAlike<T(!new)>(s: seq<T>, xs: set<T>, ys: set<T>)
    requires forall x :: x in s ==> (x in xs <==> x in ys)
    ensures Keep(s, xs) == Keep(s, ys) && Drop(s, xs) == Drop(s, ys)
  {
    if s != [] {
      SameMembersSplitAlike(s[1..], xs, ys);
    }
  }

  /** Cutting one element out by its index drops it, when nothing repeats. */
  lemma {:induction false} CutOneOut<T(!new)>(s: seq<T>, i: nat)
    requires NoDup(s) && i < |s|
    ensures s[..i] + s[i + 1..] == Drop(s, {s[i]})
  {
    if i == 0 {
      DropNone(s[1..], {s[0]});
    } else {
      CutOneOut(s[1..], i - 1);
      assert s[..i] + s[i + 1..] == [s[0]] + (s[1..][..i - 1] + s[1..][i..]);
    }
  }

  lemma DropLast<T(!new)>(s: seq<T>, x: T)
    requires x !in s
    ensures Drop(s + [x], {x}) == s && Drop(s, {x}) == s
  {
    DropConcat(s, [x], {x});
    DropNone(s, {x});
    assert Drop([x], {x}) == [];
  }

  lemma NoDupConcat<T>(a: seq<T>, b: seq<T>)
    requires NoDup(a) && NoDup(b)
    requires forall x :: x in a ==> x !in b
    ensures NoDup(a + b)
  {
    forall i, j | 0 <= i < j < |a + b|
      ensures (a + b)[i] != (a + b)[j]
    {
      if i < |a| <= j {
        assert a[i] in a && b[j - |a|] in b;
      }
    }
  }

  lemma Regroup<T>(a: seq<T>, b: seq<T>, c: seq<T>)
    ensures a + (b + c) == a + b + c
  {
  }

  function Join(parts: seq<string>, separator: string): string {
    if parts == [] then ""
    else if |parts| == 1 then parts[0]
    else parts[0] + separator + Join(parts[1..], separator)
  }

  /** The loop step of a list that drops entries while it walks: `done` stays, `left` is to come. */
  lemma CutNext<T>(done: seq<T>, left: seq<T>)
    requires left != []
    ensures var s := done + left;
      && s[|done|] == left[0] && s[..|done|] + s[|done| + 1..] == done + left[1..]
      && s == done + [left[0]] + left[1..]
  {
  }
}
