/** Sort keys, and the stable sort of Python's `sorted` as a function on sequences. */
module StableSort {

  // ----- keys: tuples of texts and numbers; a text comes before every number

  datatype Part = Text(chars: string) | Number(n: real)
  type Key = seq<Part>

  predicate TextLess(a: string, b: string) {
    b != [] && (a == [] || a[0] < b[0] || (a[0] == b[0] && TextLess(a[1..], b[1..])))
  }

  predicate PartLess(p: Part, q: Part) {
    match (p, q)
    case (Text(a), Text(b)) => TextLess(a, b)
    case (Number(m), Number(n)) => m < n
    case (Text(_), Number(_)) => true
    case (Number(_), Text(_)) => false
  }

  predicate KeyLess(a: Key, b: Key) {
    b != [] && (a == [] || PartLess(a[0], b[0]) || (a[0] == b[0] && KeyLess(a[1..], b[1..])))
  }

  lemma {:induction false} TextIrreflexive(a: string)
    ensures !TextLess(a, a)
  {
    if a != [] { TextIrreflexive(a[1..]); }
  }

  lemma {:induction false} TextLinear(a: string, b: string)
    ensures a == b || TextLess(a, b) || TextLess(b, a)
    ensures !(TextLess(a, b) && TextLess(b, a)) && !TextLess(a, a)
    decreases |a| + |b|
  {
    if a != [] && b != [] {
      TextLinear(a[1..], b[1..]);
      assert a == [a[0]] + a[1..] && b == [b[0]] + b[1..];
    }
    TextIrreflexive(a);
  }

  lemma {:induction false} TextTransitive(a: string, b: string, c: string)
    requires TextLess(a, b) && TextLess(b, c)
    ensures TextLess(a, c)
  {
    if a != [] && a[0] == b[0] && b[0] == c[0] {
      TextTransitive(a[1..], b[1..], c[1..]);
    }
  }

  lemma {:induction false} PartLinear(p: Part, q: Part)
    ensures p == q || PartLess(p, q) || PartLess(q, p)
    ensures !(PartLess(p, q) && PartLess(q, p)) && !PartLess(p, p)
  {
    if p.Text? { TextLinear(p.chars, p.chars); }
    if p.Text? && q.Text? { TextLinear(p.chars, q.chars); }
  }

  lemma {:induction false} PartTransitive(p: Part, q: Part, r: Part)
    requires PartLess(p, q) && PartLess(q, r)
    ensures PartLess(p, r)
  {
    if p.Text? && q.Text? && r.Text? { TextTransitive(p.chars, q.chars, r.chars); }
  }

  lemma {:induction false} KeyIrreflexive(a: Key)
    ensures !KeyLess(a, a)
  {
    if a != [] {
      PartLinear(a[0], a[0]);
      KeyIrreflexive(a[1..]);
    }
  }

  /** Keys are linearly ordered. */
  lemma {:induction false} KeyLinear(a: Key, b: Key)
    ensures a == b || KeyLess(a, b) || KeyLess(b, a)
    ensures !(KeyLess(a, b) && KeyLess(b, a)) && !KeyLess(a, a)
    decreases |a| + |b|
  {
    if a != [] && b != [] {
      PartLinear(a[0], b[0]);
      KeyLinear(a[1..], b[1..]);
      assert a == [a[0]] + a[1..] && b == [b[0]] + b[1..];
    }
    KeyIrreflexive(a);
  }

  lemma {:induction false} KeyTransitive(a: Key, b: Key, c: Key)
    requires KeyLess(a, b) && KeyLess(b, c)
    ensures KeyLess(a, c)
  {
    if a != [] {
      if PartLess(a[0], b[0]) && PartLess(b[0], c[0]) {
        PartTransitive(a[0], b[0], c[0]);
      } else if a[0] == b[0] && b[0] == c[0] && KeyLess(a[1..], b[1..]) && KeyLess(b[1..], c[1..]) {
        KeyTransitive(a[1..], b[1..], c[1..]);
      }
    }
  }

  // ----- the sort

  /** Puts x behind every element that is not above it. */
  function Insert<T>(x: T, s: seq<T>, key: T -> Key): seq<T> {
    if s == [] || !KeyLess(key(x), key(s[|s| - 1])) then s + [x]
    else Insert(x, s[..|s| - 1], key) + [s[|s| - 1]]
  }

  function Sort<T>(s: seq<T>, key: T -> Key): seq<T> {
    if s == [] then [] else Insert(s[|s| - 1], Sort(s[..|s| - 1], key), key)
  }

  ghost predicate Sorted<T>(s: seq<T>, key: T -> Key) {
    forall i, j | 0 <= i < j < |s| :: !KeyLess(key(s[j]), key(s[i]))
  }

  ghost predicate StrictlySorted<T>(s: seq<T>, key: T -> Key) {
    forall i, j | 0 <= i < j < |s| :: KeyLess(key(s[i]), key(s[j]))
  }

  lemma {:induction false} InsertElements<T>(x: T, s: seq<T>, key: T -> Key)
    ensures multiset(Insert(x, s, key)) == multiset(s) + multiset{x}
  {
    if s != [] && KeyLess(key(x), key(s[|s| - 1])) {
      InsertElements(x, s[..|s| - 1], key);
      assert s == s[..|s| - 1] + [s[|s| - 1]];
    }
  }

  lemma {:induction false} InsertSorts<T>(x: T, s: seq<T>, key: T -> Key)
    requires Sorted(s, key)
    ensures Sorted(Insert(x, s, key), key)
  {
    if s == [] || !KeyLess(key(x), key(s[|s| - 1])) {
      forall i | 0 <= i < |s| ensures !KeyLess(key(x), key(s[i])) {
        if KeyLess(key(x), key(s[i])) && i < |s| - 1 {
          NotBelow(key(x), key(s[i]), key(s[|s| - 1]));
        }
      }
    } else {
      var front, last := s[..|s| - 1], s[|s| - 1];
      InsertSorts(x, front, key);
      InsertElements(x, front, key);
      var t := Insert(x, front, key);
      KeyLinear(key(x), key(last));
      forall i | 0 <= i < |t| ensures !KeyLess(key(last), key(t[i])) {
        assert t[i] in multiset(t);
        assert t[i] == x || t[i] in front;
      }
    }
  }

  /** Below one of two ascending keys is below the other. */
  lemma {:induction false} NotBelow(a: Key, b: Key, c: Key)
    requires KeyLess(a, b) && !KeyLess(c, b)
    ensures KeyLess(a, c)
  {
    KeyLinear(b, c);
    if KeyLess(b, c) {
      KeyTransitive(a, b, c);
    }
  }

  lemma {:induction false} SortFacts<T>(s: seq<T>, key: T -> Key)
    ensures multiset(Sort(s, key)) == multiset(s) && |Sort(s, key)| == |s|
    ensures Sorted(Sort(s, key), key)
  {
    if s != [] {
      var n := |s| - 1;
      assert s == s[..n] + [s[n]];
      SortFacts(s[..n], key);
      InsertElements(s[n], Sort(s[..n], key), key);
      InsertSorts(s[n], Sort(s[..n], key), key);
    }
    assert |Sort(s, key)| == |multiset(Sort(s, key))| == |multiset(s)| == |s|;
  }

  // ----- stability

  /** The elements with a given key, in order. */
  function WithKey<T>(s: seq<T>, key: T -> Key, k: Key): seq<T> {
    if s == [] then []
    else WithKey(s[..|s| - 1], key, k) + if key(s[|s| - 1]) == k then [s[|s| - 1]] else []
  }

  lemma {:induction false} InsertIsStable<T>(x: T, s: seq<T>, key: T -> Key, k: Key)
    ensures WithKey(Insert(x, s, key), key, k) == WithKey(s, key, k) + if key(x) == k then [x] else []
  {
    if s == [] || !KeyLess(key(x), key(s[|s| - 1])) {
      assert (s + [x])[..|s|] == s;
    } else {
      var n := |s| - 1;
      var t := Insert(x, s[..n], key);
      InsertIsStable(x, s[..n], key, k);
      assert (t + [s[n]])[..|t|] == t;
      KeyLinear(key(x), key(s[n]));
    }
  }

  /** Elements with equal keys keep the order they came in. */
  lemma {:induction false} SortIsStable<T>(s: seq<T>, key: T -> Key, k: Key)
    ensures WithKey(Sort(s, key), key, k) == WithKey(s, key, k)
  {
    if s != [] {
      SortIsStable(s[..|s| - 1], key, k);
      InsertIsStable(s[|s| - 1], Sort(s[..|s| - 1], key), key, k);
    }
  }

  // ----- when the result does not depend on the order of the input

  function KeysOf<T(==)>(s: seq<T>, key: T -> Key): set<Key> {
    set x | x in s :: key(x)
  }

  /** As many keys as elements. */
  predicate KeysDistinct<T(==)>(s: seq<T>, key: T -> Key) {
    |KeysOf(s, key)| == |s|
  }

  lemma {:induction false} KeysOfLast<T>(s: seq<T>, key: T -> Key)
    requires s != []
    ensures KeysOf(s, key) == KeysOf(s[..|s| - 1], key) + {key(s[|s| - 1])}
  {
    assert forall x :: x in s <==> x in s[..|s| - 1] || x == s[|s| - 1];
  }

  predicate Differ<T>(s: seq<T>, key: T -> Key) {
    forall i, j | 0 <= i < j < |s| :: key(s[i]) != key(s[j])
  }

  lemma {:induction false} LastKeySeen<T>(s: seq<T>, key: T -> Key)
    requires s != []
    ensures var n := |s| - 1;
            key(s[n]) in KeysOf(s[..n], key) <==> exists i :: 0 <= i < n && key(s[i]) == key(s[n])
  {
    var n := |s| - 1;
    if key(s[n]) in KeysOf(s[..n], key) {
      var x :| x in s[..n] && key(x) == key(s[n]);
      var i :| 0 <= i < n && s[..n][i] == x;
      assert key(s[i]) == key(s[n]);
    }
    forall i | 0 <= i < n ensures key(s[i]) in KeysOf(s[..n], key) {
      assert s[..n][i] in s[..n];
    }
  }

  lemma {:induction false} DifferLast<T>(s: seq<T>, key: T -> Key)
    requires s != []
    ensures var n := |s| - 1;
            Differ(s, key) <==> Differ(s[..n], key) && !exists i :: 0 <= i < n && key(s[i]) == key(s[n])
  {
    var n := |s| - 1;
    assert forall i | 0 <= i < n :: s[..n][i] == s[i];
  }

  lemma {:induction false} DistinctKeysDiffer<T>(s: seq<T>, key: T -> Key)
    ensures |KeysOf(s, key)| <= |s|
    ensures KeysDistinct(s, key) <==> Differ(s, key)
  {
    if s != [] {
      KeysOfLast(s, key);
      DistinctKeysDiffer(s[..|s| - 1], key);
      LastKeySeen(s, key);
      DifferLast(s, key);
    }
  }

  lemma {:induction false} SameElementsSameKeys<T>(s: seq<T>, t: seq<T>, key: T -> Key)
    requires multiset(s) == multiset(t)
    ensures |s| == |t| && KeysOf(s, key) == KeysOf(t, key)
  {
    SameLength(s, t);
    assert forall x :: x in s <==> x in multiset(s);
    assert forall x :: x in t <==> x in multiset(t);
  }

  lemma {:induction false} DistinctSortIsStrict<T>(s: seq<T>, key: T -> Key)
    requires KeysDistinct(s, key)
    ensures StrictlySorted(Sort(s, key), key)
  {
    var t := Sort(s, key);
    SortFacts(s, key);
    SameElementsSameKeys(t, s, key);
    DistinctKeysDiffer(t, key);
    assert Differ(t, key);
    forall i, j | 0 <= i < j < |t| ensures KeyLess(key(t[i]), key(t[j])) {
      KeyLinear(key(t[i]), key(t[j]));
    }
  }

  ghost predicate Chain<T>(s: seq<T>, less: (T, T) -> bool) {
    forall i, j | 0 <= i < j < |s| :: less(s[i], s[j])
  }

  ghost predicate Asymmetric<T>(s: seq<T>, less: (T, T) -> bool) {
    forall x, y | x in s && y in s :: !(less(x, y) && less(y, x))
  }

  lemma {:induction false} SameLast<T>(a: seq<T>, b: seq<T>, less: (T, T) -> bool)
    requires Chain(a, less) && Chain(b, less) && Asymmetric(a, less) && multiset(a) == multiset(b) && a != [] && b != []
    ensures a[|a| - 1] == b[|b| - 1]
  {
    var x, y := a[|a| - 1], b[|b| - 1];
    assert x in multiset(b) && y in multiset(a);
    var i :| 0 <= i < |a| && a[i] == y;
    var j :| 0 <= j < |b| && b[j] == x;
  }

  lemma {:induction false} WithoutLast<T>(s: seq<T>)
    requires s != []
    ensures s == s[..|s| - 1] + [s[|s| - 1]]
    ensures multiset(s[..|s| - 1]) == multiset(s) - multiset{s[|s| - 1]}
    ensures forall x | x in s[..|s| - 1] :: x in s
  {
    var n := |s| - 1;
    assert s == s[..n] + [s[n]];
  }

  lemma {:induction false} SameLength<T>(a: seq<T>, b: seq<T>)
    requires multiset(a) == multiset(b)
    ensures |a| == |b|
  {
    assert |a| == |multiset(a)| == |multiset(b)| == |b|;
  }

  lemma {:induction false} ChainFront<T>(s: seq<T>, less: (T, T) -> bool)
    requires s != [] && Chain(s, less)
    ensures Chain(s[..|s| - 1], less)
  {
  }

  lemma {:induction false} ChainsAreUnique<T>(a: seq<T>, b: seq<T>, less: (T, T) -> bool)
    requires Chain(a, less) && Chain(b, less) && Asymmetric(a, less) && multiset(a) == multiset(b)
    ensures a == b
  {
    SameLength(a, b);
    if a != [] {
      var n := |a| - 1;
      SameLast(a, b, less);
      WithoutLast(a);
      WithoutLast(b);
      ChainFront(a, less);
      ChainFront(b, less);
      assert Asymmetric(a[..n], less);
      ChainsAreUnique(a[..n], b[..n], less);
      assert a == b by {
        assert a == b[..n] + [b[n]];
      }
    }
  }

  lemma {:induction false} StrictOrderIsUnique<T>(a: seq<T>, b: seq<T>, key: T -> Key)
    requires StrictlySorted(a, key) && StrictlySorted(b, key) && multiset(a) == multiset(b)
    ensures a == b
  {
    var less := (x: T, y: T) => KeyLess(key(x), key(y));
    forall x, y | x in a && y in a ensures !(less(x, y) && less(y, x)) {
      KeyLinear(key(x), key(y));
    }
    ChainsAreUnique(a, b, less);
  }

  /** With distinct keys the sorted result is the same for every reordering of the input. */
  lemma {:induction false} SortIgnoresInputOrder<T>(s: seq<T>, t: seq<T>, key: T -> Key)
    requires multiset(s) == multiset(t) && KeysDistinct(s, key)
    ensures Sort(s, key) == Sort(t, key)
  {
    SortFacts(s, key);
    SortFacts(t, key);
    SameElementsSameKeys(s, t, key);
    DistinctSortIsStrict(s, key);
    DistinctSortIsStrict(t, key);
    StrictOrderIsUnique(Sort(s, key), Sort(t, key), key);
  }

  /** Sorting what is sorted already changes nothing. */
  lemma {:induction false} SortedIsFixed<T>(s: seq<T>, key: T -> Key)
    requires Sorted(s, key)
    ensures Sort(s, key) == s
  {
    if s != [] {
      var n := |s| - 1;
      SortedIsFixed(s[..n], key);
      assert s == s[..n] + [s[n]];
    }
  }
}
