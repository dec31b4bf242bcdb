/** The flat JSON objects the storefront reads from the backend and keeps in
    browser storage, with JavaScript's truthiness on their values. */
module Json {
  import opened Wrappers

  /** A JSON value as found under a key of a user record. */
  datatype Value = Null | Bool(b: bool) | Str(s: string)

  /** A JSON object: keys that are absent read as `undefined`. */
  type Object = map<string, Value>

  /** JavaScript truthiness: `null`, `false` and "" are falsy. */
  predicate Truthy(v: Value) {
    match v
    case Null => false
    case Bool(b) => b
    case Str(s) => s != ""
  }

  /** `o[key]` is truthy; an absent key reads as `undefined`, which is falsy. */
  predicate Present(o: Object, key: string) {
    key in o && Truthy(o[key])
  }

  /** `o[key]` is `null` or `undefined` (the case `??` replaces). */
  predicate Nullish(o: Object, key: string) {
    key !in o || o[key] == Null
  }

  /** The text a value shows as when it sits under a text field (`String(v)`). */
  function TextOf(v: Value): string {
    match v
    case Null => "null"
    case Bool(b) => if b then "true" else "false"
    case Str(s) => s
  }

  /** The character of a decimal digit. */
  function Digit(d: nat): (c: char)
    requires d < 10
    ensures '0' <= c <= '9' && c as int - '0' as int == d
  {
    ('0' as int + d) as char
  }

  /** `String(n)` for an array index: its decimal digits, without leading
      zeros. */
  function IndexName(n: nat): (t: string)
    ensures t != [] && forall i :: 0 <= i < |t| ==> '0' <= t[i] <= '9'
    ensures n < 10 <==> |t| == 1
    decreases n
  {
    if n < 10 then [Digit(n)] else IndexName(n / 10) + [Digit(n % 10)]
  }

  /** Different indices have different names. */
  lemma {:induction false} IndexNameInjective(a: nat, b: nat)
    requires IndexName(a) == IndexName(b)
    ensures a == b
    decreases a
  {
    var t := IndexName(a);
    if a < 10 {
      assert t[0] == Digit(a) && IndexName(b)[0] == Digit(b);
    } else {
      var n := |t| - 1;
      assert t[n] == Digit(a % 10) && IndexName(b)[n] == Digit(b % 10);
      assert t[..n] == IndexName(a / 10) && IndexName(b)[..n] == IndexName(b / 10);
      IndexNameInjective(a / 10, b / 10);
    }
  }

  /** The own enumerable properties of a string, as `{...s}` copies them:
      one entry per character under its index; every key is a decimal
      numeral. */
  function CharEntries(s: string): (o: Object)
    ensures forall k :: k in o ==> k != [] && forall j :: 0 <= j < |k| ==> '0' <= k[j] <= '9'
    decreases |s|
  {
    if s == [] then map[]
    else
      var n := |s| - 1;
      CharEntries(s[..n])[IndexName(n) := Str([s[n]])]
  }

  /** Nothing but the indices of the string is a key. */
  lemma {:induction false} CharEntriesKeys(s: string, k: string)
    requires k in CharEntries(s)
    ensures exists i :: 0 <= i < |s| && k == IndexName(i)
    decreases |s|
  {
    var n := |s| - 1;
    if k != IndexName(n) {
      CharEntriesKeys(s[..n], k);
    }
  }

  /** Each character sits under its own index. */
  lemma {:induction false} CharEntriesAt(s: string, i: nat)
    requires i < |s|
    ensures IndexName(i) in CharEntries(s) && CharEntries(s)[IndexName(i)] == Str([s[i]])
    decreases |s|
  {
    var n := |s| - 1;
    if i < n {
      if IndexName(i) == IndexName(n) {
        IndexNameInjective(i, n);
      }
      assert s[..n][i] == s[i];
      CharEntriesAt(s[..n], i);
    }
  }

  /** `{...v}` for a parsed value that is not an object: `null` and the
      booleans have no own properties; a string has its characters. */
  function SpreadOf(v: Value): (o: Object)
    ensures !v.Str? ==> o == map[]
    ensures forall k :: k in o ==> k != [] && forall i :: 0 <= i < |k| ==> '0' <= k[i] <= '9'
  {
    match v
    case Str(s) => CharEntries(s)
    case _ => map[]
  }

  /** `err.message || fallback` on the body of a refused request: the
      server's message when it sent a non-empty one, the fallback otherwise. */
  function MessageOr(message: Option<string>, fallback: string): (t: string)
    requires fallback != ""
    ensures t != ""
    ensures message.Some? && message.value != "" ==> t == message.value
    ensures message.None? || message.value == "" ==> t == fallback
  {
    match message
    case Some(m) => if m != "" then m else fallback
    case None => fallback
  }
}
