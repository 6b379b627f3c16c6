/** Case folding as the services use it: `String.toLowerCase` on route
    queries and `String.equalsIgnoreCase` on train and user ids. Folding is
    ASCII-only: the locale rules of the Java library are not modelled. */
module CaseFold {
  import Lists

  /** One character in lower case: 'A'..'Z' map to 'a'..'z', all else is kept. */
  function Lower(c: char): (d: char)
    ensures !('A' <= d <= 'Z')
    ensures 'A' <= c <= 'Z' ==> 'a' <= d <= 'z' && d as int - c as int == 32
    ensures !('A' <= c <= 'Z') ==> d == c
  {
    if 'A' <= c <= 'Z' then (c as int + 32) as char else c
  }

  /** `s.toLowerCase()`. */
  function LowerStr(s: string): (r: string)
    ensures |r| == |s|
    ensures forall i :: 0 <= i < |s| ==> r[i] == Lower(s[i])
  {
    if s == [] then [] else [Lower(s[0])] + LowerStr(s[1..])
  }

  /** Lower-casing an already lower-cased string changes nothing. */
  lemma {:induction false} LowerStrIdempotent(s: string)
    ensures LowerStr(LowerStr(s)) == LowerStr(s)
  {
    var r := LowerStr(s);
    assert forall i :: 0 <= i < |r| ==> LowerStr(r)[i] == r[i];
  }

  /** `a.equalsIgnoreCase(b)`. */
  predicate EqualsIgnoreCase(a: string, b: string)
    ensures EqualsIgnoreCase(a, b) <==>
              |a| == |b| && forall i :: 0 <= i < |a| ==> Lower(a[i]) == Lower(b[i])
  {
    LowerStr(a) == LowerStr(b)
  }

  /** Every element of `s` in lower case. */
  function LowerAll(s: seq<string>): (r: seq<string>)
    ensures |r| == |s|
    ensures forall i :: 0 <= i < |s| ==> r[i] == LowerStr(s[i])
  {
    seq(|s|, i requires 0 <= i < |s| => LowerStr(s[i]))
  }

  /** The index of the first element of `s` that equals `key` ignoring case,
      or -1: `IntStream.range(0, n).filter(i -> s.get(i).equalsIgnoreCase(key)).findFirst()`. */
  function IndexOfIgnoreCase(s: seq<string>, key: string): (r: int)
    ensures -1 <= r < |s|
    ensures r == -1 <==> forall j :: 0 <= j < |s| ==> !EqualsIgnoreCase(s[j], key)
    ensures 0 <= r ==> EqualsIgnoreCase(s[r], key)
    ensures 0 <= r ==> forall j :: 0 <= j < r ==> !EqualsIgnoreCase(s[j], key)
  {
    var folded := LowerAll(s);
    var r := Lists.IndexOf(folded, LowerStr(key));
    assert r == -1 ==> forall j :: 0 <= j < |s| ==> folded[j] != LowerStr(key);
    r
  }
}
