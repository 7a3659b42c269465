/** Layered AGENTS.md instructions: from the root of the checkout down to the working directory, within a
    budget of bytes. */
module AgentsMd {
  import opened Text

  const AGENTS_FILE := "AGENTS.md"
  const OVERRIDE_FILE := "AGENTS.override.md"

  // ---- UTF-8, sections 3 and 4 of RFC 3629 ----

  newtype byte = x: int | 0 <= x < 0x100

  predicate IsTail(b: byte)
  {
    0x80 <= b <= 0xBF
  }

  /** The length of the character that begins with `b`; 0 when none does. */
  function Width(b: byte): nat
  {
    if b <= 0x7F then 1
    else if 0xC2 <= b <= 0xDF then 2
    else if 0xE0 <= b <= 0xEF then 3
    else if 0xF0 <= b <= 0xF4 then 4
    else 0
  }

  /** The second byte of a character is narrowed by some first bytes. */
  predicate SecondByte(first: byte, second: byte)
  {
    && IsTail(second)
    && (first == 0xE0 ==> 0xA0 <= second)
    && (first == 0xED ==> second <= 0x9F)
    && (first == 0xF0 ==> 0x90 <= second)
    && (first == 0xF4 ==> second <= 0x8F)
  }

  /** `s` begins with one encoded character of `n` bytes. */
  predicate BeginsWithChar(s: seq<byte>, n: nat)
  {
    && 0 < n <= |s| && Width(s[0]) == n
    && (n > 1 ==> SecondByte(s[0], s[1]))
    && forall k :: 2 <= k < n ==> IsTail(s[k])
  }

  predicate ValidUtf8(s: seq<byte>)
  {
    s == [] || (BeginsWithChar(s, Width(s[0])) && ValidUtf8(s[Width(s[0])..]))
  }

  /** Rust strings are always valid UTF-8. */
  type Utf8 = s: seq<byte> | ValidUtf8(s)

  /** The scalar values of Unicode, and how they are encoded. */
  type Scalar = c: nat | c <= 0x10FFFF && !(0xD800 <= c <= 0xDFFF)

  function Encoded(c: Scalar): (r: seq<byte>)
    ensures 0 < |r| <= 4
  {
    if c < 0x80 then [c as byte]
    else if c < 0x800 then [(0xC0 + c / 64) as byte, Sextet(c)]
    else if c < 0x1_0000 then [(0xE0 + c / 64 / 64) as byte, Sextet(c / 64), Sextet(c)]
    else [(0xF0 + c / 64 / 64 / 64) as byte, Sextet(c / 64 / 64), Sextet(c / 64), Sextet(c)]
  }

  function Sextet(c: nat): byte
  {
    (0x80 + c % 64) as byte
  }

  function EncodedText(cs: seq<Scalar>): seq<byte>
  {
    if cs == [] then [] else Encoded(cs[0]) + EncodedText(cs[1..])
  }

  lemma EncodedBegins(c: Scalar, later: seq<byte>)
    ensures BeginsWithChar(Encoded(c) + later, |Encoded(c)|)
  {
  }

  /** One more byte of a character: six more bits of its scalar value. */
  function Shifted(high: nat, tail: byte): nat
    requires IsTail(tail)
  {
    high * 64 + (tail as int - 0x80)
  }

  lemma ShiftedBack(high: nat, tail: byte)
    requires IsTail(tail)
    ensures Shifted(high, tail) / 64 == high && Sextet(Shifted(high, tail)) == tail
  {
  }

  lemma CharDecodes3(s: seq<byte>) returns (c: Scalar)
    requires BeginsWithChar(s, 3)
    ensures Encoded(c) == s[..3]
  {
    assert IsTail(s[2]);
    var high: nat := s[0] as int - 0xE0;
    var mid := Shifted(high, s[1]);
    ShiftedBack(high, s[1]);
    ShiftedBack(mid, s[2]);
    c := Shifted(mid, s[2]);
    hide Sextet;
    assert s[..3] == [s[0], s[1], s[2]];
  }

  lemma CharDecodes4(s: seq<byte>) returns (c: Scalar)
    requires BeginsWithChar(s, 4)
    ensures Encoded(c) == s[..4]
  {
    assert IsTail(s[2]) && IsTail(s[3]);
    var high: nat := s[0] as int - 0xF0;
    var mid := Shifted(high, s[1]);
    var low := Shifted(mid, s[2]);
    ShiftedBack(high, s[1]);
    ShiftedBack(mid, s[2]);
    ShiftedBack(low, s[3]);
    c := Shifted(low, s[3]);
    hide Sextet;
    assert s[..4] == [s[0], s[1], s[2], s[3]];
  }

  /** The scalar value that a character encodes. */
  lemma CharDecodes(s: seq<byte>, n: nat) returns (c: Scalar)
    requires BeginsWithChar(s, n)
    ensures Encoded(c) == s[..n]
  {
    if n == 1 {
      c := s[0] as int;
    } else if n == 2 {
      ShiftedBack(s[0] as int - 0xC0, s[1]);
      c := Shifted(s[0] as int - 0xC0, s[1]);
      hide Sextet;
      assert s[..2] == [s[0], s[1]];
    } else if n == 3 {
      c := CharDecodes3(s);
    } else {
      c := CharDecodes4(s);
    }
  }

  lemma {:induction false} EncodedIsValid(cs: seq<Scalar>)
    ensures ValidUtf8(EncodedText(cs))
  {
    if cs != [] {
      hide Encoded, BeginsWithChar;
      EncodedIsValid(cs[1..]);
      EncodedBegins(cs[0], EncodedText(cs[1..]));
      OneWidth(EncodedText(cs), |Encoded(cs[0])|);
      assert EncodedText(cs)[|Encoded(cs[0])|..] == EncodedText(cs[1..]);
    }
  }

  lemma OneWidth(s: seq<byte>, n: nat)
    requires BeginsWithChar(s, n)
    ensures s != [] && Width(s[0]) == n <= |s|
  {
  }

  lemma {:induction false} ValidDecodes(s: seq<byte>) returns (cs: seq<Scalar>)
    requires ValidUtf8(s)
    ensures EncodedText(cs) == s
  {
    if s == [] {
      cs := [];
    } else {
      hide Encoded;
      var n := Width(s[0]);
      var c := CharDecodes(s, n);
      var later := ValidDecodes(s[n..]);
      cs := [c] + later;
      assert cs[1..] == later && s == s[..n] + s[n..];
    }
  }

  /** Valid UTF-8 is what encoding a text yields, and nothing else. */
  lemma ValidIffEncoded(s: seq<byte>)
    ensures ValidUtf8(s) <==> exists cs :: EncodedText(cs) == s
  {
    if ValidUtf8(s) {
      var cs := ValidDecodes(s);
    }
    if cs :| EncodedText(cs) == s {
      EncodedIsValid(cs);
    }
  }

  /** The test the program makes: the ends, and any byte that does not continue a character. */
  predicate IsCharBoundary(s: seq<byte>, k: nat)
  {
    k == 0 || k == |s| || (k < |s| && !IsTail(s[k]))
  }

  /** The byte test finds the ends of whole characters and nothing else. */
  lemma {:induction false} BoundaryIffValid(s: seq<byte>, k: nat)
    requires ValidUtf8(s) && k <= |s|
    ensures IsCharBoundary(s, k) <==> ValidUtf8(s[..k])
    decreases |s|
  {
    if k > 0 {
      var n := Width(s[0]);
      if k < n {
        assert IsTail(s[k]);
      } else {
        BoundaryIffValid(s[n..], k - n);
        assert s[..k][n..] == s[n..][..k - n];
        assert BeginsWithChar(s[..k], n);
      }
    }
  }

  /** Among four consecutive positions one ends a character. */
  lemma {:induction false} BoundaryIsNear(s: seq<byte>, k: nat)
    requires ValidUtf8(s) && k <= |s|
    ensures exists j: nat :: k - 4 < j <= k && IsCharBoundary(s, j)
    decreases |s|
  {
    if k == 0 || k == |s| {
      assert IsCharBoundary(s, k);
    } else {
      var n := Width(s[0]);
      if k < n {
        assert IsCharBoundary(s, 0);
      } else {
        BoundaryIsNear(s[n..], k - n);
        var j: nat :| k - n - 4 < j <= k - n && IsCharBoundary(s[n..], j);
        assert j == 0 && n < |s| ==> BeginsWithChar(s[n..], Width(s[n..][0])) && s[n] == s[n..][0];
        assert IsCharBoundary(s, n + j);
      }
    }
  }

  /** `p` is the longest prefix of `s` that is valid UTF-8 and within `max` bytes. */
  ghost predicate LongestValidPrefix(p: seq<byte>, s: seq<byte>, max: nat)
  {
    && p <= s && |p| <= max && ValidUtf8(p)
    && forall k: nat :: |p| < k <= max && k <= |s| ==> !ValidUtf8(s[..k])
  }

  /** Cutting a text to the budget never cuts a character, and loses at most three bytes of it. */
  method BoundedUtf8(value: Utf8, max: nat) returns (text: Utf8, clipped: bool)
    ensures clipped <==> |value| > max
    ensures !clipped ==> text == value
    ensures clipped ==> LongestValidPrefix(text, value, max) && |text| > max - 4
  {
    if |value| <= max {
      return value, false;
    }
    var end: nat := max;
    while end > 0 && !IsCharBoundary(value, end)
      invariant end <= max
      invariant forall k: nat :: end < k <= max ==> !IsCharBoundary(value, k)
    {
      end := end - 1;
    }
    BoundaryIffValid(value, end);
    forall k: nat | end < k <= max ensures !ValidUtf8(value[..k]) {
      BoundaryIffValid(value, k);
    }
    BoundaryIsNear(value, max);
    return value[..end], true;
  }

  // ---- The directories from the root to the working directory ----

  function Split(s: string): (r: seq<string>)
    ensures |r| > 0
  {
    if s == "" then [""]
    else
      var rest := Split(s[1..]);
      if s[0] == '/' then [""] + rest else [[s[0]] + rest[0]] + rest[1..]
  }

  function Slashes(s: string): (r: string)
    ensures |r| == |s| && forall k :: 0 <= k < |s| ==> r[k] == if s[k] == '\\' then '/' else s[k]
  {
    if s == "" then "" else [if s[0] == '\\' then '/' else s[0]] + Slashes(s[1..])
  }

  predicate IsName(part: string)
  {
    part != "" && part != "."
  }

  function Names(parts: seq<string>): (r: seq<string>)
    ensures forall p :: p in r <==> p in parts && p != "" && p != "."
  {
    if parts == [] then [] else (if IsName(parts[0]) then [parts[0]] else []) + Names(parts[1..])
  }

  /** A path that stays inside the checkout. */
  predicate IsRelative(path: string)
  {
    && !StartsWith(path, "/")
    && ':' !in path
    && ".." !in Split(path)
  }

  function JoinRelative(directory: string, file: string): string
  {
    if directory == "" then file else directory + "/" + file
  }

  /** The directory reached through the first `n` names. */
  function Reached(names: seq<string>): string
  {
    if names == [] then "" else JoinRelative(Reached(names[..|names| - 1]), names[|names| - 1])
  }

  function Chain(names: seq<string>): (r: seq<string>)
    ensures |r| == |names| + 1
    ensures forall k :: 0 <= k <= |names| ==> r[k] == Reached(names[..k])
  {
    seq(|names| + 1, k requires 0 <= k <= |names| => Reached(names[..k]))
  }

  /** The names on the way to the working directory. */
  function PathNames(cwd: string): seq<string>
  {
    Names(Split(Slashes(cwd)))
  }

  function Ancestors(cwd: string): Option<seq<string>>
  {
    if IsRelative(Slashes(cwd)) then Some(Chain(PathNames(cwd))) else None
  }

  method RelativeAncestors(cwd: string) returns (directories: Option<seq<string>>)
    ensures directories == Ancestors(cwd)
  {
    hide Split, Names, Reached, IsRelative;
    var path := Slashes(cwd);
    if !IsRelative(path) {
      return None;
    }
    var names := Names(Split(path));
    var found, current, n := [""], "", 0;
    ReachedStep(names, 0);
    while n < |names|
      invariant n <= |names| && current == Reached(names[..n]) && |found| == n + 1
      invariant forall k :: 0 <= k <= n ==> found[k] == Reached(names[..k])
    {
      ReachedStep(names, n);
      if current != "" {
        current := current + "/";
      }
      current := current + names[n];
      found := found + [current];
      n := n + 1;
    }
    assert found == Chain(names);
    return Some(found);
  }

  lemma ReachedStep(names: seq<string>, n: nat)
    requires n <= |names|
    ensures Reached(names[..0]) == ""
    ensures n < |names| ==> Reached(names[..n + 1]) == JoinRelative(Reached(names[..n]), names[n])
  {
    if n < |names| {
      assert names[..n + 1][..n] == names[..n];
    }
  }

  lemma {:induction false} SplitHasNoSlash(s: string)
    ensures forall p :: p in Split(s) ==> '/' !in p
  {
    if s != "" {
      SplitHasNoSlash(s[1..]);
    }
  }

  /** `part` stands at `i` between two slashes, or the ends, and holds none itself. */
  predicate PartAt(s: string, part: string, i: nat)
  {
    && OccursAt(s, part, i) && '/' !in part
    && (i == 0 || s[i - 1] == '/')
    && (i + |part| == |s| || s[i + |part|] == '/')
  }

  lemma {:induction false} FirstPart(s: string)
    ensures PartAt(s, Split(s)[0], 0)
  {
    if s != "" && s[0] != '/' {
      FirstPart(s[1..]);
    }
  }

  lemma OnePartAt(s: string, a: string, b: string)
    requires PartAt(s, a, 0) && PartAt(s, b, 0)
    ensures a == b
  {
    assert forall k :: 0 <= k < |a| ==> a[k] == s[k];
    assert forall k :: 0 <= k < |b| ==> b[k] == s[k];
  }

  lemma PartShifts(s: string, part: string, i: nat)
    requires s != "" && 0 < i && (i > 1 || s[0] == '/')
    ensures PartAt(s, part, i) <==> PartAt(s[1..], part, i - 1)
  {
    if i + |part| <= |s| {
      var m, later := i + |part|, s[1..];
      assert forall k :: i <= k < m ==> s[k] == later[k - 1];
      assert s[i..m] == later[i - 1..m - 1];
    }
  }

  /** `part` stands somewhere behind the first slash. */
  ghost predicate PartBehind(s: string, part: string)
  {
    exists i: nat :: 0 < i && PartAt(s, part, i)
  }

  lemma BehindShifts(s: string, part: string)
    requires s != ""
    ensures PartBehind(s, part) <==>
      if s[0] == '/' then PartAt(s[1..], part, 0) || PartBehind(s[1..], part) else PartBehind(s[1..], part)
  {
    var later := s[1..];
    if i: nat :| 0 < i && PartAt(s, part, i) {
      PartShifts(s, part, i);
      assert i > 1 ==> PartAt(later, part, i - 1);
    }
    if i: nat :| 0 < i && PartAt(later, part, i) {
      PartShifts(s, part, i + 1);
      assert PartAt(s, part, i + 1);
    }
    if s[0] == '/' {
      PartShifts(s, part, 1);
    }
  }

  lemma {:induction false} LaterPartIff(s: string, part: string)
    ensures part in Split(s)[1..] <==> PartBehind(s, part)
  {
    if s != "" {
      hide PartAt, PartBehind;
      var later := s[1..];
      LaterPartIff(later, part);
      BehindShifts(s, part);
      if s[0] == '/' {
        FirstPartIff(later, part);
        assert Split(s)[1..] == Split(later);
        assert part in Split(later) <==> part == Split(later)[0] || part in Split(later)[1..];
      } else {
        assert Split(s)[1..] == Split(later)[1..];
      }
    }
  }

  lemma FirstPartIff(s: string, part: string)
    ensures PartAt(s, part, 0) <==> part == Split(s)[0]
  {
    FirstPart(s);
    if PartAt(s, part, 0) {
      OnePartAt(s, part, Split(s)[0]);
    }
  }

  lemma PartIff(s: string, part: string)
    ensures part in Split(s) <==> exists i: nat :: PartAt(s, part, i)
  {
    FirstPartIff(s, part);
    LaterPartIff(s, part);
    assert part in Split(s) <==> part == Split(s)[0] || part in Split(s)[1..];
  }

  predicate IsSlash(c: char)
  {
    c == '/' || c == '\\'
  }

  /** The two dots at `i` are a whole part of the path, whichever way the slashes lean. */
  predicate ParentAt(cwd: string, i: nat)
  {
    && i + 2 <= |cwd| && cwd[i] == cwd[i + 1] == '.'
    && (i == 0 || IsSlash(cwd[i - 1]))
    && (i + 2 == |cwd| || IsSlash(cwd[i + 2]))
  }

  /** A working directory is rejected if and only if it begins at a root, names a drive or leaves through a
      parent. */
  lemma RejectedIff(cwd: string)
    ensures Ancestors(cwd).None? <==>
      || (cwd != "" && IsSlash(cwd[0]))
      || ':' in cwd
      || exists i: nat :: ParentAt(cwd, i)
  {
    hide Split;
    var path := Slashes(cwd);
    PartIff(path, "..");
    assert ':' in cwd <==> ':' in path by {
      forall k | 0 <= k < |cwd| ensures cwd[k] == ':' <==> path[k] == ':' {}
    }
    assert StartsWith(path, "/") <==> cwd != "" && IsSlash(cwd[0]);
    forall i: nat ensures ParentAt(cwd, i) <==> PartAt(path, "..", i) {
      if i + 2 <= |cwd| {
        assert path[i..i + 2] == [path[i], path[i + 1]];
      }
    }
  }

  lemma {:induction false} SplitName(s: string)
    ensures '/' !in s ==> Split(s) == [s]
  {
    if s != "" {
      SplitName(s[1..]);
      assert [s[0]] + s[1..] == s;
    }
  }

  lemma {:induction false} SplitJoined(a: string, b: string)
    ensures Split(a + "/" + b) == Split(a) + Split(b)
  {
    var s := a + "/" + b;
    if a == "" {
      assert s[1..] == b;
    } else {
      assert s[1..] == a[1..] + "/" + b;
      SplitJoined(a[1..], b);
    }
  }

  lemma {:induction false} NamesOfBoth(a: seq<string>, b: seq<string>)
    ensures Names(a + b) == Names(a) + Names(b)
  {
    if a == [] {
      assert a + b == b;
    } else {
      assert (a + b)[1..] == a[1..] + b;
      NamesOfBoth(a[1..], b);
    }
  }

  predicate AreNames(names: seq<string>)
  {
    forall p :: p in names ==> IsName(p) && '/' !in p
  }

  lemma NamesOfOne(part: string)
    ensures Names([part]) == if IsName(part) then [part] else []
  {
    assert [part][1..] == [];
  }

  lemma ReachedSnoc(front: seq<string>, last: string)
    ensures Reached(front + [last]) == JoinRelative(Reached(front), last)
  {
    assert (front + [last])[..|front|] == front;
  }

  /** Reading the reached directory gives back the names it was built from. */
  lemma {:induction false} ReachedReadsBack(names: seq<string>)
    requires AreNames(names)
    ensures Names(Split(Reached(names))) == names
    ensures Reached(names) == "" <==> names == []
    ensures names != [] ==> Split(Reached(names)) == names
  {
    if names != [] {
      hide Split, Names, Reached;
      var front, last := names[..|names| - 1], names[|names| - 1];
      assert last in names && front + [last] == names;
      ReachedReadsBack(front);
      ReachedSnoc(front, last);
      NamesOfOne(last);
      if front == [] {
        SplitName(last);
      } else {
        NextNameReadsBack(front, last);
      }
    }
  }

  lemma NextNameReadsBack(front: seq<string>, last: string)
    requires front != [] && Reached(front) != "" && IsName(last) && '/' !in last
    requires Split(Reached(front)) == front && Names(front) == front
    ensures var directory := JoinRelative(Reached(front), last);
      Split(directory) == front + [last] && Names(front + [last]) == front + [last]
  {
    hide Split, Names, Reached;
    SplitJoined(Reached(front), last);
    SplitName(last);
    NamesOfBoth(front, [last]);
    NamesOfOne(last);
  }

  lemma PathNamesAreNames(cwd: string)
    ensures AreNames(PathNames(cwd))
    ensures IsRelative(Slashes(cwd)) ==> ".." !in PathNames(cwd)
  {
    SplitHasNoSlash(Slashes(cwd));
  }

  /** `to` is the directory `name` in `from`. */
  predicate Extends(from: string, to: string, name: string)
  {
    name !in {"", ".", ".."} && '/' !in name && to == (if from == "" then name else from + "/" + name)
  }

  /** The chain starts at the root, every directory extends the one before by one real name, and the last
      is the working directory itself, rid of empty and `.` parts. */
  lemma AncestorsExtend(cwd: string)
    requires Ancestors(cwd).Some?
    ensures var chain, names := Ancestors(cwd).value, PathNames(cwd);
      && |chain| == |names| + 1 && chain[0] == ""
      && (forall k :: 0 <= k < |names| ==> Extends(chain[k], chain[k + 1], names[k]))
      && Names(Split(chain[|names|])) == names
  {
    hide IsRelative, Split, Names, Reached, PathNames;
    var names := PathNames(cwd);
    PathNamesAreNames(cwd);
    ReachedStep(names, 0);
    forall k | 0 <= k < |names| ensures Extends(Chain(names)[k], Chain(names)[k + 1], names[k]) {
      ReachedStep(names, k);
      assert names[k] in names;
    }
    ReachedReadsBack(names);
    assert names[..|names|] == names;
  }

  lemma ExtendsGrows(from: string, to: string, name: string)
    ensures Extends(from, to, name) ==> from < to
  {
  }

  lemma {:induction false} ChainGrows(chain: seq<string>, names: seq<string>, j: nat, k: nat)
    requires |chain| == |names| + 1 && forall i :: 0 <= i < |names| ==> Extends(chain[i], chain[i + 1], names[i])
    requires j < k < |chain|
    ensures chain[j] < chain[k]
    decreases k
  {
    hide *;
    assert Extends(chain[k - 1], chain[k - 1 + 1], names[k - 1]);
    ExtendsGrows(chain[k - 1], chain[k], names[k - 1]);
    if j < k - 1 {
      ChainGrows(chain, names, j, k - 1);
    }
  }

  /** Every directory properly extends those before it: none is visited twice. */
  lemma AncestorsGrow(cwd: string, j: nat, k: nat)
    requires Ancestors(cwd).Some? && j < k < |Ancestors(cwd).value|
    ensures Ancestors(cwd).value[j] < Ancestors(cwd).value[k]
  {
    hide *;
    AncestorsExtend(cwd);
    ChainGrows(Ancestors(cwd).value, PathNames(cwd), j, k);
  }

  lemma {:induction false} SplitOnlyDivides(s: string, p: string, c: char)
    ensures p in Split(s) && c in p ==> c in s
  {
    if s != "" {
      var rest := Split(s[1..]);
      SplitOnlyDivides(s[1..], p, c);
      SplitOnlyDivides(s[1..], rest[0], c);
    }
  }

  lemma {:induction false} ReachedAddsOnlySlashes(names: seq<string>, c: char)
    requires c in Reached(names) && c != '/'
    ensures exists p :: p in names && c in p
  {
    var front, last := names[..|names| - 1], names[|names| - 1];
    if c in last {
      assert last in names;
    } else {
      ReachedAddsOnlySlashes(front, c);
      var p :| p in front && c in p;
      assert p in names;
    }
  }

  /** The normal form of a relative path is one, and mentions no character the path did not. */
  lemma ReachedIsRelative(path: string)
    requires IsRelative(path) && '\\' !in path
    ensures var last := Reached(Names(Split(path))); IsRelative(last) && '\\' !in last
  {
    var names := Names(Split(path));
    var last := Reached(names);
    SplitHasNoSlash(path);
    hide Split, Names, Reached;
    forall c | c in last && c != '/' ensures c in path {
      ReachedAddsOnlySlashes(names, c);
      var p :| p in names && c in p;
      SplitOnlyDivides(path, p, c);
    }
    ReachedReadsBack(names);
    LeadingSlashSplitsEmpty(last);
    SplitName("");
    assert names != [] ==> names[0] in names;
  }

  lemma LeadingSlashSplitsEmpty(s: string)
    ensures StartsWith(s, "/") ==> Split(s)[0] == ""
  {
  }

  /** Normal form: the last directory of a chain has that chain. */
  lemma LastHasTheSameChain(cwd: string)
    requires Ancestors(cwd).Some?
    ensures var chain := Ancestors(cwd).value; Ancestors(chain[|chain| - 1]) == Some(chain)
  {
    hide IsRelative, Split, Names, Reached;
    var names := PathNames(cwd);
    var last := Reached(names);
    ReachedIsRelative(Slashes(cwd));
    PathNamesAreNames(cwd);
    ReachedReadsBack(names);
    assert Slashes(last) == last;
    assert names[..|names|] == names;
  }

  // ---- Loading the layers ----

  datatype File = File(path: string, markdown: Utf8, hash: string)

  datatype Layer = Layer(directory: string, source: string, hash: string, markdown: Utf8)

  datatype Error = InvalidCwd | Host(reason: string) | InvalidResponse

  datatype Reply = Found(file: File) | NotFound | Failed(error: Error)

  datatype Outcome = Loaded(layers: seq<Layer>, truncated: bool) | Rejected(error: Error)

  type Reader = string -> Reply

  /** The file that speaks for a directory: its override, or else its ordinary instructions. */
  function Effective(reader: Reader, directory: string): Reply
  {
    var over := reader(JoinRelative(directory, OVERRIDE_FILE));
    if over.NotFound? then reader(JoinRelative(directory, AGENTS_FILE)) else over
  }

  function LayerOf(directory: string, file: File, markdown: Utf8): Layer
  {
    Layer(directory, file.path, file.hash, markdown)
  }

  /** The files there are, as whole layers, from the root on. */
  function WholeLayers(reader: Reader, directories: seq<string>): seq<Layer>
  {
    if directories == [] then [] else
    var n := |directories| - 1;
    var reply := Effective(reader, directories[n]);
    WholeLayers(reader, directories[..n])
    + (if reply.Found? then [LayerOf(directories[n], reply.file, reply.file.markdown)] else [])
  }

  function Bytes(layers: seq<Layer>): nat
  {
    if layers == [] then 0 else Bytes(layers[..|layers| - 1]) + |layers[|layers| - 1].markdown|
  }

  /** What a load depends on: the files, whether the token is cancelled when the k-th directory is
      reached, the directories and the budget. */
  datatype Request = Request(reader: Reader, cancelled: nat -> bool, directories: seq<string>, budget: nat)
  {
    /** The whole layers of the first `k` directories. */
    function Whole(k: nat): seq<Layer>
      requires k <= |directories|
    {
      WholeLayers(reader, directories[..k])
    }

    function Reply(k: nat): Reply
      requires k < |directories|
    {
      Effective(reader, directories[k])
    }

    predicate Halts(k: nat)
      requires k < |directories|
    {
      cancelled(k) || Reply(k).Failed?
    }

    function HaltError(k: nat): Error
      requires k < |directories| && Halts(k)
    {
      if cancelled(k) then Host("cancelled") else Reply(k).error
    }

    /** Directory `k` has a file, and the budget is used up before it or does not hold it. */
    predicate Overflows(k: nat)
      requires k < |directories|
    {
      !Halts(k) && Reply(k).Found? && (Bytes(Whole(k)) >= budget || Bytes(Whole(k)) + |Reply(k).file.markdown| > budget)
    }

    predicate Passes(k: nat)
      requires k < |directories|
    {
      !Halts(k) && !Overflows(k)
    }

    predicate PassesBefore(k: nat)
      requires k <= |directories|
    {
      forall j :: 0 <= j < k ==> Passes(j)
    }

    /** The layers when directory `k` is the first that the budget does not hold. */
    ghost predicate CutAt(k: nat, layers: seq<Layer>)
      requires k < |directories|
    {
      && Overflows(k)
      && if Bytes(Whole(k)) >= budget then layers == Whole(k)
         else
           && |layers| == |Whole(k)| + 1
           && layers[..|Whole(k)|] == Whole(k)
           && var file, cut := Reply(k).file, layers[|Whole(k)|];
              cut == LayerOf(directories[k], file, cut.markdown)
              && LongestValidPrefix(cut.markdown, file.markdown, budget - Bytes(Whole(k)))
              && |cut.markdown| > budget - Bytes(Whole(k)) - 4
    }

    /** The first directory that does not pass decides; if all pass, every file is there whole. */
    ghost predicate Yields(outcome: Outcome)
    {
      || (PassesBefore(|directories|) && outcome == Loaded(Whole(|directories|), false))
      || exists k :: 0 <= k < |directories| && PassesBefore(k) && EndsAt(k, outcome)
    }

    ghost predicate EndsAt(k: nat, outcome: Outcome)
      requires k < |directories|
    {
      if Halts(k) then outcome == Rejected(HaltError(k))
      else outcome.Loaded? && outcome.truncated && CutAt(k, outcome.layers)
    }
  }

  method ReadEffective(reader: Reader, directory: string) returns (reply: Reply)
    ensures reply == Effective(reader, directory)
  {
    reply := reader(JoinRelative(directory, OVERRIDE_FILE));
    if reply.NotFound? {
      reply := reader(JoinRelative(directory, AGENTS_FILE));
    }
  }

  lemma WholeStep(q: Request, k: nat)
    requires k < |q.directories|
    ensures q.Whole(k + 1) == q.Whole(k) + (if q.Reply(k).Found? then
              [LayerOf(q.directories[k], q.Reply(k).file, q.Reply(k).file.markdown)] else [])
    ensures Bytes(q.Whole(k + 1)) == Bytes(q.Whole(k)) + (if q.Reply(k).Found? then |q.Reply(k).file.markdown| else 0)
  {
    hide Bytes, Effective;
    assert q.directories[..k + 1][..k] == q.directories[..k];
    if q.Reply(k).Found? {
      BytesSnoc(q.Whole(k), LayerOf(q.directories[k], q.Reply(k).file, q.Reply(k).file.markdown));
    } else {
      assert q.Whole(k) + [] == q.Whole(k);
    }
  }

  method LoadLayers(q: Request) returns (outcome: Outcome)
    ensures q.Yields(outcome)
  {
    hide Bytes, WholeLayers, Effective, LongestValidPrefix;
    var layers, remaining, k := [], q.budget, 0;
    NoLayers(q);
    while k < |q.directories|
      invariant k <= |q.directories| && layers == q.Whole(k) && remaining == q.budget - Bytes(layers) && remaining >= 0
      invariant q.PassesBefore(k)
    {
      var directory := q.directories[k];
      if q.cancelled(k) {
        outcome := Rejected(Host("cancelled"));
        assert q.EndsAt(k, outcome);
        return;
      }
      var reply := ReadEffective(q.reader, directory);
      if reply.Failed? {
        outcome := Rejected(reply.error);
        assert q.EndsAt(k, outcome);
        return;
      }
      WholeStep(q, k);
      if reply.Found? {
        if remaining == 0 {
          outcome := Loaded(layers, true);
          assert q.EndsAt(k, outcome);
          return;
        }
        var markdown, clipped := BoundedUtf8(reply.file.markdown, remaining);
        layers := layers + [LayerOf(directory, reply.file, markdown)];
        if clipped {
          outcome := Loaded(layers, true);
          assert layers[..|q.Whole(k)|] == q.Whole(k);
          assert q.EndsAt(k, outcome);
          return;
        }
        remaining := remaining - |markdown|;
      }
      k := k + 1;
    }
    assert q.directories[..k] == q.directories;
    outcome := Loaded(layers, false);
  }

  method Load(cwd: string, reader: Reader, cancelled: nat -> bool, budget: nat) returns (outcome: Outcome)
    ensures match Ancestors(cwd)
      case None => outcome == Rejected(InvalidCwd)
      case Some(chain) => Request(reader, cancelled, chain, budget).Yields(outcome)
  {
    var directories := RelativeAncestors(cwd);
    if directories.None? {
      return Rejected(InvalidCwd);
    }
    outcome := LoadLayers(Request(reader, cancelled, directories.value, budget));
  }

  // ---- What the layers amount to ----

  lemma {:induction false} BytesOfPrefix(layers: seq<Layer>, n: nat)
    requires n <= |layers|
    ensures Bytes(layers[..n]) <= Bytes(layers)
    decreases |layers|
  {
    if n < |layers| {
      BytesOfPrefix(layers[..|layers| - 1], n);
      assert layers[..|layers| - 1][..n] == layers[..n];
    } else {
      assert layers[..n] == layers;
    }
  }

  lemma {:induction false} WholeIsPrefix(q: Request, j: nat, k: nat)
    requires j <= k <= |q.directories|
    ensures q.Whole(j) <= q.Whole(k)
    decreases k
  {
    hide *;
    if j < k {
      WholeIsPrefix(q, j, k - 1);
      WholeStep(q, k - 1);
    }
  }

  lemma BytesSnoc(layers: seq<Layer>, layer: Layer)
    ensures Bytes(layers + [layer]) == Bytes(layers) + |layer.markdown|
  {
    assert (layers + [layer])[..|layers|] == layers;
  }

  /** While directories pass, the budget holds. */
  lemma {:induction false} PassingFits(q: Request, k: nat)
    requires k <= |q.directories| && q.PassesBefore(k)
    ensures Bytes(q.Whole(k)) <= q.budget
    decreases k
  {
    hide WholeLayers, Bytes;
    if k == 0 {
      assert q.directories[..0] == [];
      NoLayers(q);
    } else {
      assert q.PassesBefore(k - 1) && q.Passes(k - 1);
      PassingFits(q, k - 1);
      WholeStep(q, k - 1);
    }
  }

  lemma NoLayers(q: Request)
    ensures q.Whole(0) == [] && Bytes([]) == 0
  {
  }

  /** Within the budget; and cut short only when all but three bytes of it are used. */
  lemma LayersFillTheBudget(q: Request, outcome: Outcome)
    requires q.Yields(outcome) && outcome.Loaded?
    ensures Bytes(outcome.layers) <= q.budget
    ensures outcome.truncated ==> Bytes(outcome.layers) > q.budget - 4
  {
    hide Bytes, WholeLayers, LongestValidPrefix;
    if outcome.truncated {
      var k :| 0 <= k < |q.directories| && q.PassesBefore(k) && q.EndsAt(k, outcome);
      CutBytes(q, k, outcome.layers);
    } else {
      PassingFits(q, |q.directories|);
    }
  }

  lemma CutBytes(q: Request, k: nat, layers: seq<Layer>)
    requires k < |q.directories| && q.PassesBefore(k) && q.CutAt(k, layers)
    ensures q.budget - 4 < Bytes(layers) <= q.budget
  {
    hide Bytes, WholeLayers;
    PassingFits(q, k);
    if Bytes(q.Whole(k)) < q.budget {
      var n := |q.Whole(k)|;
      assert layers == q.Whole(k) + [layers[n]];
      BytesSnoc(q.Whole(k), layers[n]);
    }
  }

  /** The layers are the files found, in chain order from the first on and whole, except that the last may
      be cut to its longest valid prefix. */
  lemma LayersAreAPrefix(q: Request, outcome: Outcome, i: nat)
    requires q.Yields(outcome) && outcome.Loaded? && i < |outcome.layers|
    ensures var all := q.Whole(|q.directories|);
      && |outcome.layers| <= |all|
      && outcome.layers[i] == all[i].(markdown := outcome.layers[i].markdown)
      && outcome.layers[i].markdown <= all[i].markdown
      && (i < |outcome.layers| - 1 || !outcome.truncated ==> outcome.layers[i] == all[i])
      && (!outcome.truncated ==> outcome.layers == all)
  {
    hide Bytes, WholeLayers, Effective;
    if outcome.truncated {
      var k :| 0 <= k < |q.directories| && q.PassesBefore(k) && q.EndsAt(k, outcome);
      WholeStep(q, k);
      WholeIsPrefix(q, k + 1, |q.directories|);
      if i < |q.Whole(k)| {
        assert outcome.layers[i] == outcome.layers[..|q.Whole(k)|][i] == q.Whole(k)[i];
      }
    }
  }

  /** Where a directory keeps its override and its ordinary instructions. */
  function PathIn(directory: string, name: string): string
  {
    if directory == "" then name else directory + "/" + name
  }

  /** `file` is what the directory gives: its override wherever there is one, and its ordinary instructions where
      there is no override at all. */
  predicate Gives(reader: Reader, directory: string, file: File)
  {
    var over := reader(PathIn(directory, "AGENTS.override.md"));
    over == Found(file) || (over == NotFound && reader(PathIn(directory, "AGENTS.md")) == Found(file))
  }

  /** The directories with a file, among the first `n`. */
  ghost function GivingDirectories(q: Request, n: nat): set<nat>
    requires n <= |q.directories|
  {
    set k: nat | k < n && exists file :: Gives(q.reader, q.directories[k], file)
  }

  lemma GivesIff(q: Request, k: nat)
    requires k < |q.directories|
    ensures forall file :: Gives(q.reader, q.directories[k], file) <==> q.Reply(k) == Found(file)
    ensures (exists file :: Gives(q.reader, q.directories[k], file)) <==> q.Reply(k).Found?
  {
    if q.Reply(k).Found? {
      assert Gives(q.reader, q.directories[k], q.Reply(k).file);
    }
  }

  lemma GivingStep(q: Request, n: nat)
    requires n < |q.directories|
    ensures GivingDirectories(q, n + 1) == GivingDirectories(q, n) + (if q.Reply(n).Found? then {n} else {})
  {
    hide Gives;
    GivesIff(q, n);
  }

  /** The i-th layer is of the i-th directory with a file, and it is the file that this directory gives. */
  lemma {:induction false} LayerByDirectory(q: Request, n: nat, i: nat) returns (k: nat)
    requires n <= |q.directories| && i < |q.Whole(n)|
    ensures k in GivingDirectories(q, n) && |set j | j in GivingDirectories(q, n) && j < k| == i
    ensures q.Whole(n)[i].directory == q.directories[k]
    ensures Gives(q.reader, q.directories[k], File(q.Whole(n)[i].source, q.Whole(n)[i].markdown, q.Whole(n)[i].hash))
  {
    hide WholeLayers, Effective, Gives;
    if n == 0 {
      NoLayers(q);
    } else {
      WholeStep(q, n - 1);
      GivingStep(q, n - 1);
      LayersAreCounted(q, n - 1);
      GivesIff(q, n - 1);
      var older := GivingDirectories(q, n - 1);
      if i < |q.Whole(n - 1)| {
        k := LayerByDirectory(q, n - 1, i);
        assert (set j | j in GivingDirectories(q, n) && j < k) == (set j | j in older && j < k);
      } else {
        k := n - 1;
        assert (set j | j in GivingDirectories(q, n) && j < k) == older;
      }
    }
  }

  lemma {:induction false} LayersAreCounted(q: Request, n: nat)
    requires n <= |q.directories|
    ensures |q.Whole(n)| == |GivingDirectories(q, n)|
  {
    hide WholeLayers, Effective, Gives;
    if n == 0 {
      NoLayers(q);
      assert GivingDirectories(q, 0) == {};
    } else {
      LayersAreCounted(q, n - 1);
      WholeStep(q, n - 1);
      GivingStep(q, n - 1);
    }
  }

  /** A load that is not truncated has one layer for every directory with a file, in chain order, and each is the
      whole file that its directory gives. */
  lemma LayersAreTheFiles(q: Request, outcome: Outcome, i: nat)
    requires q.Yields(outcome) && outcome.Loaded? && i < |outcome.layers|
    ensures !outcome.truncated ==> |outcome.layers| == |GivingDirectories(q, |q.directories|)|
    ensures var l := outcome.layers[i];
      exists k, markdown ::
        && k in GivingDirectories(q, |q.directories|)
        && |set j | j in GivingDirectories(q, |q.directories|) && j < k| == i
        && l.directory == q.directories[k] && l.markdown <= markdown
        && Gives(q.reader, q.directories[k], File(l.source, markdown, l.hash))
  {
    hide GivingDirectories, Gives;
    LayersAreAPrefix(q, outcome, i);
    var n := |q.directories|;
    LayersAreCounted(q, n);
    var k := LayerByDirectory(q, n, i);
  }

  /** Reading what the directory gives fails with `error`. */
  predicate FailsWith(reader: Reader, directory: string, error: Error)
  {
    var over := reader(PathIn(directory, "AGENTS.override.md"));
    || over == Failed(error)
    || (over == NotFound && reader(PathIn(directory, "AGENTS.md")) == Failed(error))
  }

  /** A load is rejected only when the token was cancelled or a read failed at a directory it came to, with no
      such thing and no lack of budget at any directory before. */
  lemma WhyRejected(q: Request, outcome: Outcome)
    requires q.Yields(outcome) && outcome.Rejected?
    ensures exists k: nat :: k < |q.directories| && q.PassesBefore(k) && StopsWith(q, k, outcome.error)
  {
    var k :| 0 <= k < |q.directories| && q.PassesBefore(k) && q.EndsAt(k, outcome);
    assert StopsWith(q, k, outcome.error);
  }

  predicate StopsWith(q: Request, k: nat, error: Error)
    requires k < |q.directories|
  {
    if q.cancelled(k) then error == Host("cancelled") else FailsWith(q.reader, q.directories[k], error)
  }

  /** A load that is not truncated came to every directory, and neither was cancelled nor failed at any. */
  lemma NothingStoppedIt(q: Request, outcome: Outcome, k: nat)
    requires q.Yields(outcome) && outcome.Loaded? && !outcome.truncated && k < |q.directories|
    ensures forall error :: !StopsWith(q, k, error)
  {
    assert q.Passes(k);
  }

  /** The last directory with a file. */
  lemma {:induction false} LastFound(q: Request, n: nat) returns (k: nat)
    requires n <= |q.directories| && q.Whole(n) != []
    ensures k < n && q.Reply(k).Found? && q.Whole(k + 1) == q.Whole(n)
    ensures q.Whole(k) == q.Whole(n)[..|q.Whole(n)| - 1]
  {
    hide Bytes, WholeLayers, Effective;
    if n == 0 {
      NoLayers(q);
    } else {
      WholeStep(q, n - 1);
      if q.Reply(n - 1).Found? {
        k := n - 1;
      } else {
        k := LastFound(q, n - 1);
      }
    }
  }

  /** A load that succeeds reports truncation if and only if the files exceed the budget, or use it up
      before the last of them. */
  lemma TruncatedIff(q: Request, outcome: Outcome)
    requires q.Yields(outcome) && outcome.Loaded?
    ensures var all := q.Whole(|q.directories|);
      outcome.truncated <==> all != [] && (Bytes(all) > q.budget || Bytes(all[..|all| - 1]) >= q.budget)
  {
    hide Bytes, WholeLayers, Effective, LongestValidPrefix;
    var all := q.Whole(|q.directories|);
    if outcome.truncated {
      var k :| 0 <= k < |q.directories| && q.PassesBefore(k) && q.EndsAt(k, outcome);
      WholeStep(q, k);
      WholeIsPrefix(q, k + 1, |q.directories|);
      assert all[..|q.Whole(k + 1)|] == q.Whole(k + 1);
      BytesOfPrefix(all, |q.Whole(k + 1)|);
      BytesOfPrefix(all[..|all| - 1], |q.Whole(k)|);
      assert all[..|all| - 1][..|q.Whole(k)|] == q.Whole(k);
    } else if all != [] {
      var k := LastFound(q, |q.directories|);
      assert q.Passes(k);
      WholeStep(q, k);
    }
  }

  /** A truncated load has left something out if and only if the files exceed the budget: the rest are
      false alarms, for an empty file found after the budget was used up exactly. */
  lemma FalseAlarmIff(q: Request, outcome: Outcome)
    requires q.Yields(outcome) && outcome.Loaded? && outcome.truncated
    ensures Bytes(outcome.layers) == Bytes(q.Whole(|q.directories|)) <==> Bytes(q.Whole(|q.directories|)) <= q.budget
  {
    hide Bytes, WholeLayers, Effective, LongestValidPrefix;
    LayersFillTheBudget(q, outcome);
    var k :| 0 <= k < |q.directories| && q.PassesBefore(k) && q.EndsAt(k, outcome);
    WholeStep(q, k);
    WholeIsPrefix(q, k + 1, |q.directories|);
    var all := q.Whole(|q.directories|);
    assert all[..|q.Whole(k + 1)|] == q.Whole(k + 1) && all[..|q.Whole(k)|] == q.Whole(k);
    BytesOfPrefix(all, |q.Whole(k + 1)|);
    BytesOfPrefix(all, |q.Whole(k)|);
  }

  /** The smallest false alarm: no budget and one empty file. */
  lemma EmptyFileSetsTruncated()
    ensures var file := File(AGENTS_FILE, [], "");
      var q := Request(path => if path == AGENTS_FILE then Found(file) else NotFound, k => false, [""], 0);
      q.Yields(Loaded([], true)) && Bytes(q.Whole(1)) == 0
  {
    var file := File(AGENTS_FILE, [], "");
    var q := Request(path => if path == AGENTS_FILE then Found(file) else NotFound, k => false, [""], 0);
    assert |OVERRIDE_FILE| != |AGENTS_FILE|;
    NoLayers(q);
    WholeStep(q, 0);
    assert q.EndsAt(0, Loaded([], true));
  }
}
