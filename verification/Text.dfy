/** Text searching as Rust's standard library does it: first occurrence of a non-empty
    pattern, prefix and suffix tests, and blankness after trimming. Strings are
    sequences of characters; every pattern searched for is ASCII, so character positions and
    byte positions select the same splits. */
module Text {

  datatype Option<+T> = None | Some(value: T)

  predicate OccursAt(s: string, pattern: string, i: nat)
  {
    i + |pattern| <= |s| && s[i..i + |pattern|] == pattern
  }

  /** The index of the first occurrence at or after `from`. */
  function FindFrom(s: string, pattern: string, from: nat): (r: Option<nat>)
    requires from <= |s|
    ensures r.Some? ==> from <= r.value && OccursAt(s, pattern, r.value)
    ensures forall j: nat :: from <= j && OccursAt(s, pattern, j) ==> r.Some? && r.value <= j
    decreases |s| - from
  {
    if OccursAt(s, pattern, from) then Some(from)
    else if from == |s| then None
    else FindFrom(s, pattern, from + 1)
  }

  function Find(s: string, pattern: string): (r: Option<nat>)
    ensures r.Some? ==> OccursAt(s, pattern, r.value)
    ensures forall j: nat :: OccursAt(s, pattern, j) ==> r.Some? && r.value <= j
  {
    FindFrom(s, pattern, 0)
  }

  predicate EndsWith(s: string, suffix: string)
  {
    |suffix| <= |s| && s[|s| - |suffix|..] == suffix
  }

  predicate StartsWith(s: string, prefix: string)
  {
    |prefix| <= |s| && s[..|prefix|] == prefix
  }

  /** The White_Space property of the Unicode Character Database. */
  predicate IsWhitespace(c: char)
  {
    var u := c as int;
    || 0x9 <= u <= 0xD || u == 0x20 || u == 0x85 || u == 0xA0 || u == 0x1680
    || 0x2000 <= u <= 0x200A || u == 0x2028 || u == 0x2029 || u == 0x202F || u == 0x205F || u == 0x3000
  }

  /** `s.trim().is_empty()` */
  predicate Blank(s: string)
  {
    forall c | c in s :: IsWhitespace(c)
  }

  function Concat(pieces: seq<string>): string
  {
    if pieces == [] then "" else pieces[0] + Concat(pieces[1..])
  }
}
