/** `sort.SliceStable(sources, func(i, j int) bool { return sources[i].Name < sources[j].Name })`:
    sources ordered by name, ascending, with sources of equal name kept in
    their original relative order. A stable sort's output is determined by
    its input, so insertion sort stands for the merge-based sort Go uses:
    SortByName is proved to be the only stable ordering of its input. */
module SourceSort {
  import opened Models
  import opened GoStrings

  /** The less function handed to `sort.SliceStable`. */
  predicate NameLess(a: Source, b: Source)
  {
    Less(a.name, b.name)
  }

  predicate SortedByName(s: seq<Source>)
  {
    forall i, j :: 0 <= i < j < |s| ==> !NameLess(s[j], s[i])
  }

  /** The sources of `s` that are called `n`, in the order of `s`. */
  function Named(s: seq<Source>, n: string): seq<Source>
  {
    if s == [] then [] else Named(s[..|s| - 1], n) + (if s[|s| - 1].name == n then [s[|s| - 1]] else [])
  }

  /** `r` is a stable sort of `s`: ordered by name, and for every name the
      sources of that name appear in `r` exactly as in `s`. */
  ghost predicate IsStableSortOf(r: seq<Source>, s: seq<Source>)
  {
    SortedByName(r) && forall n :: Named(r, n) == Named(s, n)
  }

  /** Inserts `x` into `t` after every source whose name is not greater. */
  function Insert(t: seq<Source>, x: Source): (r: seq<Source>)
    ensures |r| == |t| + 1
  {
    if t == [] || !NameLess(x, t[|t| - 1]) then t + [x]
    else Insert(t[..|t| - 1], x) + [t[|t| - 1]]
  }

  /** Insertion sort by name: sort all but the last source, then insert it. */
  function SortByName(s: seq<Source>): (r: seq<Source>)
    ensures |r| == |s|
  {
    if s == [] then [] else Insert(SortByName(s[..|s| - 1]), s[|s| - 1])
  }

  lemma {:induction false} InsertMultiset(t: seq<Source>, x: Source)
    ensures multiset(Insert(t, x)) == multiset(t) + multiset{x}
  {
    if t != [] && NameLess(x, t[|t| - 1]) {
      InsertMultiset(t[..|t| - 1], x);
      assert t == t[..|t| - 1] + [t[|t| - 1]];
    }
  }

  lemma {:induction false} SortByNameMultiset(s: seq<Source>)
    ensures multiset(SortByName(s)) == multiset(s)
  {
    if s != [] {
      SortByNameMultiset(s[..|s| - 1]);
      InsertMultiset(SortByName(s[..|s| - 1]), s[|s| - 1]);
      assert s == s[..|s| - 1] + [s[|s| - 1]];
    }
  }

  lemma {:induction false} InsertSorted(t: seq<Source>, x: Source)
    requires SortedByName(t)
    ensures SortedByName(Insert(t, x))
  {
    var r := Insert(t, x);
    if t == [] || !NameLess(x, t[|t| - 1]) {
      forall i, j | 0 <= i < j < |r| ensures !NameLess(r[j], r[i]) {
        if j == |t| && i < |t| - 1 && Less(x.name, t[i].name) {
          var last := t[|t| - 1];
          LessTotal(last.name, t[i].name);
          if Less(t[i].name, last.name) {
            LessTransitive(x.name, t[i].name, last.name);
          }
        }
      }
    } else {
      var t', last := t[..|t| - 1], t[|t| - 1];
      InsertSorted(t', x);
      var r' := Insert(t', x);
      InsertMultiset(t', x);
      LessAsymmetric(x.name, last.name);
      forall i | 0 <= i < |r'| ensures !NameLess(last, r'[i]) {
        assert r'[i] in multiset(r');
        if r'[i] != x {
          assert r'[i] in multiset(t');
          var k :| 0 <= k < |t'| && t'[k] == r'[i];
          assert t[k] == t'[k];
        }
      }
    }
  }

  lemma {:induction false} SortByNameSorted(s: seq<Source>)
    ensures SortedByName(SortByName(s))
  {
    if s != [] {
      SortByNameSorted(s[..|s| - 1]);
      InsertSorted(SortByName(s[..|s| - 1]), s[|s| - 1]);
    }
  }

  lemma NamedAppend(t: seq<Source>, x: Source, n: string)
    ensures Named(t + [x], n) == Named(t, n) + (if x.name == n then [x] else [])
  {
    assert (t + [x])[..|t|] == t;
  }

  lemma {:induction false} InsertNamed(t: seq<Source>, x: Source, n: string)
    ensures Named(Insert(t, x), n) == Named(t, n) + (if x.name == n then [x] else [])
  {
    if t == [] || !NameLess(x, t[|t| - 1]) {
      NamedAppend(t, x, n);
    } else {
      var t', last := t[..|t| - 1], t[|t| - 1];
      InsertNamed(t', x, n);
      NamedAppend(Insert(t', x), last, n);
      LessIrreflexive(x.name);
    }
  }

  /** Sources of equal name keep their relative order. */
  lemma {:induction false} SortByNameStable(s: seq<Source>, n: string)
    ensures Named(SortByName(s), n) == Named(s, n)
  {
    if s != [] {
      SortByNameStable(s[..|s| - 1], n);
      InsertNamed(SortByName(s[..|s| - 1]), s[|s| - 1], n);
    }
  }

  lemma {:induction false} NamedMembers(s: seq<Source>, x: Source)
    ensures x in s <==> x in Named(s, x.name)
  {
    if s != [] {
      NamedMembers(s[..|s| - 1], x);
      assert s == s[..|s| - 1] + [s[|s| - 1]];
    }
  }

  /** The last source of a sequence ordered by name has the greatest name. */
  lemma LastIsGreatest(r: seq<Source>, e: Source)
    requires SortedByName(r) && e in r
    ensures !Less(r[|r| - 1].name, e.name)
  {
    var i :| 0 <= i < |r| && r[i] == e;
    if i < |r| - 1 {
      assert !NameLess(r[|r| - 1], r[i]);
    } else {
      LessIrreflexive(e.name);
    }
  }

  lemma NamedEmptyOnlyForEmpty(r: seq<Source>)
    requires forall n :: Named(r, n) == []
    ensures r == []
  {
    if r != [] {
      NamedMembers(r, r[0]);
    }
  }

  /** Two sequences ordered by name that agree on the names of their last
      sources end in the same source. */
  lemma SameLast(r1: seq<Source>, r2: seq<Source>)
    requires r1 != [] && r2 != []
    requires SortedByName(r1) && SortedByName(r2)
    requires Named(r1, r1[|r1| - 1].name) == Named(r2, r1[|r1| - 1].name)
    requires Named(r1, r2[|r2| - 1].name) == Named(r2, r2[|r2| - 1].name)
    ensures r1[|r1| - 1] == r2[|r2| - 1]
  {
    var a, b := r1[|r1| - 1], r2[|r2| - 1];
    SameLastName(r1, r2);
    var n1, n2 := Named(r1, a.name), Named(r2, a.name);
    assert n1 == Named(r1[..|r1| - 1], a.name) + [a];
    assert n2 == Named(r2[..|r2| - 1], a.name) + [b];
    assert n1[|n1| - 1] == a && n2[|n2| - 1] == b;
  }

  lemma SameLastName(r1: seq<Source>, r2: seq<Source>)
    requires r1 != [] && r2 != []
    requires SortedByName(r1) && SortedByName(r2)
    requires Named(r1, r1[|r1| - 1].name) == Named(r2, r1[|r1| - 1].name)
    requires Named(r1, r2[|r2| - 1].name) == Named(r2, r2[|r2| - 1].name)
    ensures r1[|r1| - 1].name == r2[|r2| - 1].name
  {
    var a, b := r1[|r1| - 1], r2[|r2| - 1];
    NamedMembers(r2, b);
    NamedMembers(r1, b);
    NamedMembers(r1, a);
    NamedMembers(r2, a);
    LastIsGreatest(r1, b);
    LastIsGreatest(r2, a);
    LessTotal(a.name, b.name);
  }

  /** Two sequences ordered by name that agree on every name are equal. */
  lemma {:induction false} StableSortUnique(r1: seq<Source>, r2: seq<Source>)
    requires SortedByName(r1) && SortedByName(r2)
    requires forall n :: Named(r1, n) == Named(r2, n)
    ensures r1 == r2
  {
    if r1 == [] {
      NamedEmptyOnlyForEmpty(r2);
    } else if r2 == [] {
      NamedEmptyOnlyForEmpty(r1);
    } else {
      assert Named(r1, r1[|r1| - 1].name) == Named(r2, r1[|r1| - 1].name);
      assert Named(r1, r2[|r2| - 1].name) == Named(r2, r2[|r2| - 1].name);
      SameLast(r1, r2);
      var a := r1[|r1| - 1];
      var r1', r2' := r1[..|r1| - 1], r2[..|r2| - 1];
      forall n ensures Named(r1', n) == Named(r2', n) {
        var tail := if a.name == n then [a] else [];
        assert Named(r1, n) == Named(r2, n);
        assert Named(r1, n) == Named(r1', n) + tail;
        assert Named(r2, n) == Named(r2', n) + tail;
        assert Named(r1', n) == Named(r1, n)[..|Named(r1', n)|];
        assert Named(r2', n) == Named(r2, n)[..|Named(r2', n)|];
      }
      StableSortUnique(r1', r2');
      assert r1 == r1' + [a] && r2 == r2' + [a];
    }
  }

  /** SortByName is the stable sort by name: it is one, and any stable sort
      of the same input produces it. It also only reorders its input. */
  lemma SortByNameIsTheStableSort(s: seq<Source>, r: seq<Source>)
    ensures IsStableSortOf(SortByName(s), s)
    ensures IsStableSortOf(r, s) <==> r == SortByName(s)
    ensures multiset(SortByName(s)) == multiset(s)
  {
    SortByNameSorted(s);
    forall n ensures Named(SortByName(s), n) == Named(s, n) {
      SortByNameStable(s, n);
    }
    if IsStableSortOf(r, s) {
      StableSortUnique(r, SortByName(s));
    }
    SortByNameMultiset(s);
  }

  /** One step of the shift loop: passing over a source with a greater
      name moves the insertion point one place left. */
  lemma InsertShift(t: seq<Source>, x: Source, j: nat)
    requires 0 < j <= |t| && NameLess(x, t[j - 1])
    ensures Insert(t[..j], x) + t[j..] == Insert(t[..j - 1], x) + t[j - 1..]
  {
    assert t[..j][..j - 1] == t[..j - 1];
    assert t[j - 1..] == [t[j - 1]] + t[j..];
  }

  lemma InsertHere(t: seq<Source>, x: Source, j: nat)
    requires j <= |t| && (j == 0 || !NameLess(x, t[j - 1]))
    ensures Insert(t[..j], x) == t[..j] + [x]
  {
  }

  /** Moves `a[i]` left past the sources before it whose name is greater,
      shifting them one place right: the inner loop of insertion sort. */
  method InsertAt(a: array<Source>, i: nat)
    requires i < a.Length
    modifies a
    ensures a[..i + 1] == Insert(old(a[..i]), old(a[i]))
    ensures a[i + 1..] == old(a[i + 1..])
  {
    ghost var t := a[..i];
    var x := a[i];
    var j := i;
    assert t[..j] == t && t[j..] == [];
    while j > 0 && NameLess(x, a[j - 1])
      invariant 0 <= j <= i
      invariant forall k :: 0 <= k < j ==> a[k] == t[k]
      invariant forall k :: j < k <= i ==> a[k] == t[k - 1]
      invariant forall k :: i < k < a.Length ==> a[k] == old(a[k])
      invariant Insert(t, x) == Insert(t[..j], x) + t[j..]
    {
      InsertShift(t, x, j);
      a[j] := a[j - 1];
      j := j - 1;
    }
    InsertHere(t, x, j);
    a[j] := x;
    Assemble(a[..], t, x, j);
  }

  /** The array after the inner loop, read as a sequence. */
  lemma Assemble(b: seq<Source>, t: seq<Source>, x: Source, j: nat)
    requires j <= |t| < |b|
    requires forall k :: 0 <= k < j ==> b[k] == t[k]
    requires b[j] == x
    requires forall k :: j < k <= |t| ==> b[k] == t[k - 1]
    ensures b[..|t| + 1] == t[..j] + [x] + t[j..]
  {
  }

  /** The in-place sort, as insertion sort on the array. */
  method SortSourcesByName(a: array<Source>)
    modifies a
    ensures a[..] == SortByName(old(a[..]))
  {
    ghost var s := a[..];
    var i := 0;
    while i < a.Length
      invariant 0 <= i <= a.Length
      invariant a[..i] == SortByName(s[..i])
      invariant a[i..] == s[i..]
    {
      ghost var sorted, x := a[..i], a[i];
      assert x == s[i];
      InsertAt(a, i);
      assert a[..i + 1] == Insert(sorted, x);
      assert s[..i + 1][..i] == s[..i];
      assert SortByName(s[..i + 1]) == Insert(SortByName(s[..i]), s[i]);
      i := i + 1;
    }
    assert s[..a.Length] == s;
  }
}
