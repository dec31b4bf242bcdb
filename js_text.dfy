/** The JavaScript string built-ins the storefront relies on: `trim`,
    `toLowerCase`/`toUpperCase` (on ASCII letters), `startsWith`, and
    `split(',')` with its inverse `join(',')`. Strings are sequences of
    characters. */
module JsText {

  /** The characters `String.prototype.trim` removes: the ECMAScript
      WhiteSpace set (tab, vertical tab, form feed, space, no-break space,
      byte-order mark and every other space separator of Unicode) and the
      LineTerminator set (line feed, carriage return, line and paragraph
      separator). */
  predicate IsSpace(c: char) {
    || c == '\t' || c == '\U{000B}' || c == '\U{000C}' || c == ' '
    || c == '\U{00A0}' || c == '\U{FEFF}' || c == '\U{1680}'
    || ('\U{2000}' <= c <= '\U{200A}')
    || c == '\U{202F}' || c == '\U{205F}' || c == '\U{3000}'
    || c == '\n' || c == '\r' || c == '\U{2028}' || c == '\U{2029}'
  }

  predicate AllSpace(s: string) {
    forall i :: 0 <= i < |s| ==> IsSpace(s[i])
  }

  /** The number of white-space characters `s` starts with. */
  function LeadingSpace(s: string): (n: nat)
    ensures n <= |s|
    ensures forall i :: 0 <= i < n ==> IsSpace(s[i])
    ensures n < |s| ==> !IsSpace(s[n])
    decreases |s|
  {
    if s != [] && IsSpace(s[0]) then 1 + LeadingSpace(s[1..]) else 0
  }

  /** The number of white-space characters `s` ends with. */
  function TrailingSpace(s: string): (n: nat)
    ensures n <= |s|
    ensures forall i :: |s| - n <= i < |s| ==> IsSpace(s[i])
    ensures n < |s| ==> !IsSpace(s[|s| - 1 - n])
    decreases |s|
  {
    if s != [] && IsSpace(s[|s| - 1]) then 1 + TrailingSpace(s[..|s| - 1]) else 0
  }

  /** `s.trim()`: what is left of `s` once the white space at both ends is
      removed. It is empty exactly when `s` is all white space; otherwise it
      is the run of `s` that starts at the first non-space character and
      ends at the last one. */
  function Trim(s: string): (r: string)
    ensures r == [] <==> AllSpace(s)
    ensures r != [] ==> !IsSpace(r[0]) && !IsSpace(r[|r| - 1])
    ensures LeadingSpace(s) + |r| <= |s|
    ensures r == s[LeadingSpace(s)..LeadingSpace(s) + |r|]
    ensures AllSpace(s[LeadingSpace(s) + |r|..])
  {
    var a := LeadingSpace(s);
    if a == |s| then []
    else
      var b := |s| - TrailingSpace(s);
      s[a..b]
  }

  /** Trimming is idempotent: a trimmed string has no white space left at
      either end. */
  lemma TrimIdempotent(s: string)
    ensures Trim(Trim(s)) == Trim(s)
  {
    var r := Trim(s);
    if r != [] {
      assert LeadingSpace(r) == 0;
      assert TrailingSpace(r) == 0;
    }
  }

  /** Trimming never brings in a character that `s` does not have. */
  lemma TrimKeeps(s: string, c: char)
    requires c !in s
    ensures c !in Trim(s)
  {
    var r := Trim(s);
    var k := LeadingSpace(s);
    forall i | 0 <= i < |r| ensures r[i] != c {
      assert r[i] == s[k + i];
    }
  }

  /** `toLowerCase` on one character (ASCII letters only). */
  function LowerChar(c: char): (d: char)
    ensures 'A' <= c <= 'Z' ==> 'a' <= d <= 'z' && d as int - c as int == 'a' as int - 'A' as int
    ensures !('A' <= c <= 'Z') ==> d == c
  {
    if 'A' <= c <= 'Z' then (c as int - 'A' as int + 'a' as int) as char else c
  }

  /** `toUpperCase` on one character (ASCII letters only). */
  function UpperChar(c: char): (d: char)
    ensures 'a' <= c <= 'z' ==> 'A' <= d <= 'Z' && c as int - d as int == 'a' as int - 'A' as int
    ensures !('a' <= c <= 'z') ==> d == c
  {
    if 'a' <= c <= 'z' then (c as int - 'a' as int + 'A' as int) as char else c
  }

  /** `s.toLowerCase()`: every character mapped, length kept. */
  function Lower(s: string): (r: string)
    ensures |r| == |s|
    ensures forall i :: 0 <= i < |s| ==> r[i] == LowerChar(s[i])
  {
    seq(|s|, i requires 0 <= i < |s| => LowerChar(s[i]))
  }

  /** Lowering twice is lowering once, so a lowered string is its own key
      for case-insensitive comparison. */
  lemma LowerIdempotent(s: string)
    ensures Lower(Lower(s)) == Lower(s)
  {
    assert forall i :: 0 <= i < |s| ==> LowerChar(LowerChar(s[i])) == LowerChar(s[i]);
  }

  /** `a` and `b` are equal ignoring case, as `a.toLowerCase() === b.toLowerCase()`. */
  predicate SameIgnoringCase(a: string, b: string) {
    Lower(a) == Lower(b)
  }

  /** `s.startsWith(prefix)`. */
  predicate StartsWith(s: string, prefix: string) {
    prefix <= s
  }

  /** `s.split(',')`: the maximal comma-free pieces of `s`, in order; there is
      always at least one piece, and "" splits into [""]. */
  function SplitComma(s: string): (parts: seq<string>)
    ensures |parts| >= 1
    decreases |s|
  {
    if s == [] then [""]
    else
      var rest := SplitComma(s[1..]);
      if s[0] == ',' then [""] + rest
      else [[s[0]] + rest[0]] + rest[1..]
  }

  /** No piece of a split holds a comma. */
  lemma {:induction false} SplitCommaFree(s: string)
    ensures forall i :: 0 <= i < |SplitComma(s)| ==> ',' !in SplitComma(s)[i]
    decreases |s|
  {
    if s != [] {
      var rest := SplitComma(s[1..]);
      SplitCommaFree(s[1..]);
      if s[0] != ',' {
        assert ',' !in [s[0]] + rest[0];
        assert forall i :: 1 <= i < |SplitComma(s)| ==> SplitComma(s)[i] == rest[i];
      } else {
        assert forall i :: 1 <= i < |SplitComma(s)| ==> SplitComma(s)[i] == rest[i - 1];
      }
    }
  }

  /** `parts.join(',')`. */
  function JoinComma(parts: seq<string>): string
    requires |parts| >= 1
    decreases |parts|
  {
    if |parts| == 1 then parts[0] else parts[0] + "," + JoinComma(parts[1..])
  }

  /** Joining the pieces of a split gives back the string. */
  lemma {:induction false} JoinSplit(s: string)
    ensures JoinComma(SplitComma(s)) == s
    decreases |s|
  {
    if s != [] {
      var c := s[0];
      var rest := SplitComma(s[1..]);
      assert s == [c] + s[1..];
      SplitCons(c, s[1..]);
      JoinSplit(s[1..]);
      if c == ',' {
        JoinEmptyHead(rest);
      } else {
        JoinCharHead(c, rest);
      }
    }
  }

  /** An empty first piece joins as a leading comma. */
  lemma JoinEmptyHead(r: seq<string>)
    requires |r| >= 1
    ensures JoinComma([""] + r) == "," + JoinComma(r)
  {
    AppendTail([""], r);
  }

  /** A character in front of the first piece is in front of the join. */
  lemma JoinCharHead(c: char, r: seq<string>)
    requires |r| >= 1
    ensures JoinComma([[c] + r[0]] + r[1..]) == [c] + JoinComma(r)
  {
    AppendTail([[c] + r[0]], r[1..]);
    if |r| > 1 {
      Associative([c], r[0], "," + JoinComma(r[1..]));
      Associative([c] + r[0], ",", JoinComma(r[1..]));
      Associative(r[0], ",", JoinComma(r[1..]));
    }
  }

  /** A comma-free word in front of a string joins the first piece. */
  lemma {:induction false} SplitAfterWord(w: string, s: string)
    requires ',' !in w
    ensures SplitComma(w + s) == [w + SplitComma(s)[0]] + SplitComma(s)[1..]
    decreases |w|
  {
    if w != [] {
      assert (w + s)[1..] == w[1..] + s;
      assert (w + s)[0] == w[0];
      SplitAfterWord(w[1..], s);
      assert [w[0]] + (w[1..] + SplitComma(s)[0]) == w + SplitComma(s)[0];
    } else {
      assert w + s == s;
      assert w + SplitComma(s)[0] == SplitComma(s)[0];
      var parts := SplitComma(s);
      assert parts == [parts[0]] + parts[1..];
    }
  }

  /** Splitting at a comma splits the two sides separately. */
  lemma {:induction false} SplitAtComma(a: string, b: string)
    ensures SplitComma(a + "," + b) == SplitComma(a) + SplitComma(b)
    decreases |a|
  {
    var sb := SplitComma(b);
    if a == [] {
      assert a + "," + b == [','] + b;
      SplitCons(',', b);
    } else {
      var t := a[1..] + "," + b;
      var ra := SplitComma(a[1..]);
      var c := a[0];
      assert a + "," + b == [c] + t && a == [c] + a[1..];
      SplitAtComma(a[1..], b);
      SplitCons(c, t);
      SplitCons(c, a[1..]);
      if c == ',' {
        Associative([""], ra, sb);
      } else {
        AppendTail(ra, sb);
        Associative([[c] + ra[0]], ra[1..], sb);
      }
    }
  }

  lemma Associative<T>(x: seq<T>, y: seq<T>, z: seq<T>)
    ensures x + (y + z) == (x + y) + z
  {
  }

  lemma AppendTail<T>(x: seq<T>, y: seq<T>)
    requires |x| >= 1
    ensures (x + y)[0] == x[0] && (x + y)[1..] == x[1..] + y
  {
  }

  /** One step of the split: a comma starts a new, empty piece; any other
      character joins the first piece. */
  lemma SplitCons(c: char, t: string)
    ensures SplitComma([c] + t) ==
      if c == ',' then [""] + SplitComma(t) else [[c] + SplitComma(t)[0]] + SplitComma(t)[1..]
  {
    assert ([c] + t)[0] == c && ([c] + t)[1..] == t;
  }

  /** Splitting a join of comma-free pieces gives back exactly the pieces. */
  lemma {:induction false} SplitJoin(parts: seq<string>)
    requires |parts| >= 1
    requires forall i :: 0 <= i < |parts| ==> ',' !in parts[i]
    ensures SplitComma(JoinComma(parts)) == parts
    decreases |parts|
  {
    if |parts| == 1 {
      SplitAfterWord(parts[0], "");
      assert parts[0] + "" == parts[0];
    } else {
      SplitJoin(parts[1..]);
      SplitAtComma(parts[0], JoinComma(parts[1..]));
      SplitAfterWord(parts[0], "");
      assert parts[0] + "" == parts[0];
      assert SplitComma(parts[0]) == [parts[0]];
      assert parts == [parts[0]] + parts[1..];
    }
  }
}
