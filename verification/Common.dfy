/** Types and text helpers shared by every component. */
module Common {

  datatype Option<+T> = None | Some(value: T)

  /** A UUID as its 128-bit number; only equality of UUIDs matters. */
  type Uuid = nat

  /** UUID text always has 36 characters (section 3 of RFC 4122). */
  type UuidText = s: string | |s| == 36 witness seq(36, i => '0')

  function Lookup<K, V>(m: map<K, V>, k: K): Option<V> {
    if k in m then Some(m[k]) else None
  }

  function Min(x: real, y: real): real {
    if x <= y then x else y
  }

  function Max(x: real, y: real): real {
    if x >= y then x else y
  }

  function Pow2(n: nat): nat {
    if n == 0 then 1 else 2 * Pow2(n - 1)
  }

  function UpperChar(c: char): char {
    if 'a' <= c <= 'z' then (c as int - 32) as char else c
  }

  function LowerChar(c: char): char {
    if 'A' <= c <= 'Z' then (c as int + 32) as char else c
  }

  function Upper(s: string): (r: string) {
    seq(|s|, i requires 0 <= i < |s| => UpperChar(s[i]))
  }

  function Lower(s: string): (r: string) {
    seq(|s|, i requires 0 <= i < |s| => LowerChar(s[i]))
  }

  predicate OccursAt(text: string, token: string, i: int) {
    0 <= i <= |text| - |token| && text[i..i + |token|] == token
  }

  /** Python's `token in text`. */
  predicate Contains(text: string, token: string) {
    exists i :: 0 <= i <= |text| && OccursAt(text, token, i)
  }

  /** Case folding moves the 26 letters by 32 places and nothing else. */
  lemma {:induction false} CaseIsAscii(s: string, i: nat)
    requires i < |s|
    ensures |Upper(s)| == |Lower(s)| == |s|
    ensures 97 <= s[i] as int <= 122 ==> Upper(s)[i] as int == s[i] as int - 32 && Lower(s)[i] == s[i]
    ensures 65 <= s[i] as int <= 90 ==> Lower(s)[i] as int == s[i] as int + 32 && Upper(s)[i] == s[i]
    ensures !(97 <= s[i] as int <= 122) && !(65 <= s[i] as int <= 90) ==> Upper(s)[i] == Lower(s)[i] == s[i]
  {
  }

  lemma SplitLast<T>(a: seq<T>, b: seq<T>)
    requires b != []
    ensures a + b == (a + b[..|b| - 1]) + [b[|b| - 1]]
  {
  }

  /** The elements of `all`, dealt to `a` and `b`. */
  ghost predicate Deals<T>(all: seq<T>, a: seq<T>, b: seq<T>) {
    multiset(all) == multiset(a + b)
  }

  lemma DealOneMore<T>(all: seq<T>, a: seq<T>, b: seq<T>, x: T)
    requires Deals(all, a, b)
    ensures Deals(all + [x], a + [x], b) && Deals(all + [x], a, b + [x])
  {
    assert multiset(a + [x]) == multiset(a) + multiset{x} && multiset(b + [x]) == multiset(b) + multiset{x};
    assert multiset(all + [x]) == multiset(all) + multiset{x};
  }

  lemma DealtEitherWay<T>(all: seq<T>, a: seq<T>, b: seq<T>)
    requires Deals(all, a, b)
    ensures multiset(a + b) == multiset(b + a) == multiset(all)
  {
  }

  lemma RemoveAt<T>(s: seq<T>, i: nat)
    requires i < |s|
    ensures multiset(s[..i] + s[i + 1..]) == multiset(s) - multiset{s[i]}
  {
    assert s == s[..i] + [s[i]] + s[i + 1..];
    assert multiset(s) == multiset(s[..i] + s[i + 1..]) + multiset{s[i]};
  }

  /** Sequences with the same elements: the last of one is somewhere in the other, and
      taking it away on both sides leaves the same elements. */
  lemma MatchLast<T>(s: seq<T>, t: seq<T>) returns (i: nat)
    requires multiset(s) == multiset(t) && s != []
    ensures i < |t| && t[i] == s[|s| - 1]
    ensures multiset(s[..|s| - 1]) == multiset(t[..i] + t[i + 1..])
  {
    var n := |s| - 1;
    assert s[n] in multiset(t);
    i :| 0 <= i < |t| && t[i] == s[n];
    RemoveAt(s, n);
    RemoveAt(t, i);
    assert s[..n] + s[n + 1..] == s[..n];
  }
}
