/** The JavaScript array built-ins the storefront relies on: `filter` (here
    `Keep`) and `slice`, with the algebra the model's proofs use. */
module JsArray {

  /** `s.filter(f)`: the elements of `s` that satisfy `f`, in their order. */
  function Keep<T>(s: seq<T>, f: T -> bool): (r: seq<T>)
    ensures |r| <= |s|
    ensures forall i :: 0 <= i < |r| ==> f(r[i])
    decreases |s|
  {
    if s == [] then []
    else (if f(s[0]) then [s[0]] else []) + Keep(s[1..], f)
  }

  /** Filtering never adds an element nor repeats one more often than `s`. */
  lemma {:induction false} KeepSubMultiset<T>(s: seq<T>, f: T -> bool)
    ensures multiset(Keep(s, f)) <= multiset(s)
    decreases |s|
  {
    if s != [] {
      KeepSubMultiset(s[1..], f);
      assert s == [s[0]] + s[1..];
    }
  }

  /** An element is kept exactly when it occurs in `s` and passes `f`. */
  lemma {:induction false} KeepMembers<T>(s: seq<T>, f: T -> bool, x: T)
    ensures x in Keep(s, f) <==> x in s && f(x)
    decreases |s|
  {
    if s != [] {
      KeepMembers(s[1..], f, x);
      assert s == [s[0]] + s[1..];
    }
  }

  /** Filtering distributes over concatenation: elements keep their
      relative order. */
  lemma {:induction false} KeepAppend<T>(a: seq<T>, b: seq<T>, f: T -> bool)
    ensures Keep(a + b, f) == Keep(a, f) + Keep(b, f)
    decreases |a|
  {
    if a == [] {
      assert a + b == b;
    } else {
      assert (a + b)[0] == a[0];
      assert (a + b)[1..] == a[1..] + b;
      KeepAppend(a[1..], b, f);
    }
  }

  /** Filtering one element keeps it exactly when it passes. */
  lemma KeepOne<T>(x: T, f: T -> bool)
    ensures Keep([x], f) == if f(x) then [x] else []
  {
    assert [x][1..] == [];
  }

  /** Filtering a sequence extended by one element. */
  lemma KeepSnoc<T>(s: seq<T>, x: T, f: T -> bool)
    ensures Keep(s + [x], f) == Keep(s, f) + (if f(x) then [x] else [])
  {
    KeepAppend(s, [x], f);
    KeepOne(x, f);
  }

  /** `KeepMembers` for every element at once. */
  lemma KeepMembership<T>(s: seq<T>, f: T -> bool)
    ensures forall x :: x in Keep(s, f) <==> x in s && f(x)
  {
    forall x ensures x in Keep(s, f) <==> x in s && f(x) {
      KeepMembers(s, f, x);
    }
  }

  /** A filter that every element passes keeps the whole sequence. */
  lemma {:induction false} KeepAll<T>(s: seq<T>, f: T -> bool)
    requires forall i :: 0 <= i < |s| ==> f(s[i])
    ensures Keep(s, f) == s
    decreases |s|
  {
    if s != [] {
      KeepAll(s[1..], f);
      assert s == [s[0]] + s[1..];
    }
  }

  /** A filter that no element passes keeps nothing. */
  lemma {:induction false} KeepNone<T>(s: seq<T>, f: T -> bool)
    requires forall i :: 0 <= i < |s| ==> !f(s[i])
    ensures Keep(s, f) == []
    decreases |s|
  {
    if s != [] {
      KeepNone(s[1..], f);
    }
  }

  /** Two filters in a row are one filter by the conjunction. */
  lemma {:induction false} KeepKeep<T>(s: seq<T>, f: T -> bool, g: T -> bool, h: T -> bool)
    requires forall x :: h(x) == (f(x) && g(x))
    ensures Keep(Keep(s, f), g) == Keep(s, h)
    decreases |s|
  {
    if s != [] {
      KeepKeep(s[1..], f, g, h);
      var head := if f(s[0]) then [s[0]] else [];
      KeepAppend(head, Keep(s[1..], f), g);
      if f(s[0]) {
        assert Keep(head, g) == (if g(s[0]) then [s[0]] else []) + Keep([], g);
      }
    }
  }

  /** Two filters that agree on every element give the same result. */
  lemma {:induction false} KeepSame<T>(s: seq<T>, f: T -> bool, g: T -> bool)
    requires forall x :: x in s ==> f(x) == g(x)
    ensures Keep(s, f) == Keep(s, g)
    decreases |s|
  {
    if s != [] {
      KeepSame(s[1..], f, g);
    }
  }

  /** The way `slice` reads an index: a negative index counts from the end,
      and the result is clamped to [0, len]. */
  function SliceIndex(i: int, len: nat): (k: nat)
    ensures k <= len
    ensures 0 <= i <= len ==> k == i
    ensures i > len ==> k == len
    ensures i < 0 ==> k == if len + i < 0 then 0 else len + i
  {
    if i < 0 then (if len + i < 0 then 0 else len + i)
    else if i > len then len
    else i
  }

  /** `s.slice(start, end)`: the elements from the clamped start up to the
      clamped end, none when the end is not after the start. The slice is
      never longer than `end - start`. */
  function Slice<T>(s: seq<T>, start: int, end: int): (r: seq<T>)
    ensures |r| <= |s|
    ensures start <= end ==> |r| <= end - start
    ensures 0 <= start <= end <= |s| ==> r == s[start..end]
    ensures 0 <= start <= |s| <= end ==> r == s[start..]
  {
    var a := SliceIndex(start, |s|);
    var b := SliceIndex(end, |s|);
    if a < b then s[a..b] else []
  }

  /** The same elements, last first: the reference against which the
      price-down order is compared with the price-up order. */
  function Reverse<T>(s: seq<T>): (r: seq<T>)
    ensures |r| == |s|
    ensures forall i :: 0 <= i < |s| ==> r[i] == s[|s| - 1 - i]
    decreases |s|
  {
    if s == [] then [] else Reverse(s[1..]) + [s[0]]
  }

  /** Reversing keeps every element with its multiplicity. */
  lemma {:induction false} ReversePermutes<T>(s: seq<T>)
    ensures multiset(Reverse(s)) == multiset(s)
    decreases |s|
  {
    if s != [] {
      ReversePermutes(s[1..]);
      assert s == [s[0]] + s[1..];
    }
  }
}
