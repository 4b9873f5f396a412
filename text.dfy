/** Strings as the source compares, folds, searches and sorts them: code-point
    lexicographic order, ASCII case folding, substring search and the stable
    sort that Python's `list.sort` performs. */
module Text {

  /** Python's `a <= b` on `str`: code-point lexicographic order. */
  predicate StrLe(a: string, b: string)
  {
    if |a| == 0 then true
    else if |b| == 0 then false
    else if a[0] != b[0] then a[0] < b[0]
    else StrLe(a[1..], b[1..])
  }

  lemma StrLeRefl(a: string)
    ensures StrLe(a, a)
  {
  }

  lemma StrLeTotal(a: string, b: string)
    ensures StrLe(a, b) || StrLe(b, a)
  {
  }

  lemma StrLeAntisym(a: string, b: string)
    requires StrLe(a, b) && StrLe(b, a)
    ensures a == b
  {
    if |a| > 0 && |b| > 0 && a[0] == b[0] {
      StrLeAntisym(a[1..], b[1..]);
      assert a == [a[0]] + a[1..] && b == [b[0]] + b[1..];
    }
  }

  lemma StrLeTrans(a: string, b: string, c: string)
    requires StrLe(a, b) && StrLe(b, c)
    ensures StrLe(a, c)
  {
    if |a| > 0 && |b| > 0 && |c| > 0 && a[0] == b[0] && b[0] == c[0] {
      StrLeTrans(a[1..], b[1..], c[1..]);
    }
  }

  /** ASCII case folding; stands for both `str.casefold` and `str.lower`. */
  function FoldChar(c: char): (r: char)
    ensures 'A' <= c <= 'Z' ==> 'a' <= r <= 'z'
    ensures !('A' <= c <= 'Z') ==> r == c
  {
    if 'A' <= c <= 'Z' then (c as int + 32) as char else c
  }

  function Fold(s: string): (r: string)
    ensures |r| == |s|
    ensures forall i :: 0 <= i < |s| ==> r[i] == FoldChar(s[i])
  {
    seq(|s|, i requires 0 <= i < |s| => FoldChar(s[i]))
  }

  /** Python's `needle in hay` on strings. */
  predicate Contains(hay: string, needle: string)
  {
    if needle <= hay then true
    else if |hay| == 0 then false
    else Contains(hay[1..], needle)
  }

  lemma ContainsSelf(s: string)
    ensures Contains(s, s)
  {
  }

  lemma ContainsEmpty(s: string)
    ensures Contains(s, "")
  {
  }

  /** The sort keys the source uses: the string itself (`sort()`) or its
      lower-cased form (`sort(key=lambda x: x.lower())`). */
  datatype SortKey = Exact | IgnoreCase

  function KeyOf(k: SortKey, s: string): string {
    match k
    case Exact => s
    case IgnoreCase => Fold(s)
  }

  predicate Before(k: SortKey, a: string, b: string) {
    StrLe(KeyOf(k, a), KeyOf(k, b))
  }

  ghost predicate Sorted(k: SortKey, s: seq<string>) {
    forall i, j :: 0 <= i < j < |s| ==> Before(k, s[i], s[j])
  }

  /** Inserts `x` after every element whose key is not greater than its own:
      what appending `x` to a sorted list and stable-sorting it yields. */
  function Insert(k: SortKey, s: seq<string>, x: string): (r: seq<string>)
    ensures multiset(r) == multiset(s) + multiset{x}
    ensures |r| == |s| + 1
  {
    if |s| == 0 then [x]
    else if !Before(k, s[0], x) then [x] + s
    else
      assert s == [s[0]] + s[1..];
      [s[0]] + Insert(k, s[1..], x)
  }

  lemma {:induction false} InsertSorted(k: SortKey, s: seq<string>, x: string)
    requires Sorted(k, s)
    ensures Sorted(k, Insert(k, s, x))
  {
    if |s| == 0 {
    } else if !Before(k, s[0], x) {
      StrLeTotal(KeyOf(k, s[0]), KeyOf(k, x));
      forall j | 0 <= j < |s| ensures Before(k, x, s[j]) {
        if j > 0 { assert s[1..][j - 1] == s[j]; HeadBefore(k, s, s[j]); } else { StrLeRefl(KeyOf(k, s[0])); }
        StrLeTrans(KeyOf(k, x), KeyOf(k, s[0]), KeyOf(k, s[j]));
      }
      ConsSorted(k, x, s);
    } else {
      var t := Insert(k, s[1..], x);
      assert Sorted(k, s[1..]);
      InsertSorted(k, s[1..], x);
      forall j | 0 <= j < |t| ensures Before(k, s[0], t[j]) {
        assert t[j] in multiset(s[1..]) + multiset{x};
        if t[j] in multiset(s[1..]) {
          HeadBefore(k, s, t[j]);
        }
      }
      ConsSorted(k, s[0], t);
      assert Insert(k, s, x) == [s[0]] + t;
    }
  }

  /** Python's stable `sorted(s)` / `s.sort(key=...)`: each element is inserted
      after the earlier ones with an equal key. */
  function Sort(k: SortKey, s: seq<string>): (r: seq<string>)
    ensures multiset(r) == multiset(s)
    ensures |r| == |s|
  {
    if |s| == 0 then []
    else
      assert s == s[..|s| - 1] + [s[|s| - 1]];
      Insert(k, Sort(k, s[..|s| - 1]), s[|s| - 1])
  }

  lemma {:induction false} SortSorted(k: SortKey, s: seq<string>)
    ensures Sorted(k, Sort(k, s))
  {
    if |s| > 0 {
      SortSorted(k, s[..|s| - 1]);
      InsertSorted(k, Sort(k, s[..|s| - 1]), s[|s| - 1]);
    }
  }

  /** Every later element of a sorted list comes after its head. */
  lemma HeadBefore(k: SortKey, s: seq<string>, y: string)
    requires Sorted(k, s) && |s| > 0 && y in s[1..]
    ensures Before(k, s[0], y)
  {
    var m :| 0 <= m < |s[1..]| && s[1..][m] == y;
    assert s[m + 1] == y;
  }

  /** A head that comes before every element of a sorted tail keeps it sorted. */
  lemma ConsSorted(k: SortKey, x: string, t: seq<string>)
    requires Sorted(k, t)
    requires forall j :: 0 <= j < |t| ==> Before(k, x, t[j])
    ensures Sorted(k, [x] + t)
  {
    assert forall j :: 0 < j < |t| + 1 ==> ([x] + t)[j] == t[j - 1];
  }

  lemma TailMultiset(a: seq<string>)
    requires |a| > 0
    ensures multiset(a[1..]) == multiset(a) - multiset{a[0]}
  {
    assert a == [a[0]] + a[1..];
  }

  /** Two sorted lists with the same elements start with the same element. */
  lemma SameHead(a: seq<string>, b: seq<string>)
    requires Sorted(Exact, a) && Sorted(Exact, b) && |a| > 0
    requires multiset(a) == multiset(b)
    ensures |b| > 0 && a[0] == b[0]
  {
    assert |b| == |multiset(b)| == |a|;
    assert a[0] in multiset(b) && b[0] in multiset(a);
    assert StrLe(b[0], a[0]) by {
      if a[0] in b[1..] { HeadBefore(Exact, b, a[0]); } else { assert b[0] == a[0]; StrLeRefl(b[0]); }
    }
    assert StrLe(a[0], b[0]) by {
      if b[0] in a[1..] { HeadBefore(Exact, a, b[0]); } else { assert a[0] == b[0]; StrLeRefl(a[0]); }
    }
    StrLeAntisym(a[0], b[0]);
  }

  /** A multiset has exactly one arrangement sorted by code point, so sorting a
      sorted list, or appending to it and re-sorting, is determined by content. */
  lemma {:induction false} SortedUnique(a: seq<string>, b: seq<string>)
    requires Sorted(Exact, a) && Sorted(Exact, b)
    requires multiset(a) == multiset(b)
    ensures a == b
  {
    if |a| == 0 {
      assert |b| == |multiset(b)| == 0;
    } else {
      SameHead(a, b);
      TailMultiset(a);
      TailMultiset(b);
      assert Sorted(Exact, a[1..]) && Sorted(Exact, b[1..]);
      SortedUnique(a[1..], b[1..]);
      assert a == [a[0]] + a[1..] && b == [b[0]] + b[1..];
    }
  }

  /** Python's `list.remove(x)`: drops the first occurrence of `x`. */
  function RemoveFirst(s: seq<string>, x: string): (r: seq<string>)
    requires x in s
    ensures multiset(r) == multiset(s) - multiset{x}
    ensures |r| == |s| - 1
  {
    assert s == [s[0]] + s[1..];
    if s[0] == x then s[1..] else [s[0]] + RemoveFirst(s[1..], x)
  }

  lemma {:induction false} RemoveFirstSorted(k: SortKey, s: seq<string>, x: string)
    requires x in s && Sorted(k, s)
    ensures Sorted(k, RemoveFirst(s, x))
  {
    if s[0] != x {
      assert Sorted(k, s[1..]);
      RemoveFirstSorted(k, s[1..], x);
      var t := RemoveFirst(s[1..], x);
      forall j | 0 <= j < |t| ensures Before(k, s[0], t[j]) {
        assert t[j] in multiset(t);
        assert t[j] in multiset(s[1..]);
        HeadBefore(k, s, t[j]);
      }
      ConsSorted(k, s[0], t);
    }
  }

  predicate NoDup(s: seq<string>) {
    forall i, j :: 0 <= i < j < |s| ==> s[i] != s[j]
  }
}
