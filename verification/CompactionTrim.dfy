/** Shrinking a summary request that the provider found too long: drop the oldest history group and
    try again. */
module CompactionTrim {
  import opened Text

  const MARKER := "\n\n[group "
  const GROUP := "[group "
  const MAX_U32: nat := 0xFFFF_FFFF

  /** How many groups begin inside `s`, not counting one at its very start. */
  function Markers(s: string): nat
    decreases |s|
  {
    match Find(s, MARKER)
    case None => 0
    case Some(i) => 1 + Markers(s[i + 2..])
  }

  /** The number of positions at which the marker occurs: what `Markers` counts. */
  function Occurrences(s: string): set<nat>
  {
    set j | 0 <= j < |s| && OccursAt(s, MARKER, j)
  }

  lemma OccurrencesAfterFirst(s: string, i: nat)
    requires Find(s, MARKER) == Some(i)
    ensures Occurrences(s) == {i} + Shift(Occurrences(s[i + 2..]), i + 2)
  {
    hide Find;
    var rest := s[i + 2..];
    var shifted := Shift(Occurrences(rest), i + 2);
    forall j: nat ensures j in Occurrences(s) <==> j == i || j in shifted {
      if j >= i + 2 {
        OccurrenceInSuffix(s, i + 2, j);
      } else if j == i + 1 {
        MarkersDoNotOverlap(s, i);
      }
    }
  }

  lemma OccurrenceInSuffix(s: string, n: nat, j: nat)
    requires n <= |s| && n <= j
    ensures j in Occurrences(s) <==> j - n in Occurrences(s[n..])
  {
    assert j + |MARKER| <= |s| ==> s[n..][j - n..j - n + |MARKER|] == s[j..j + |MARKER|];
  }

  /** Occurrences of the marker never overlap, so counting after each drain counts all of them. */
  lemma {:induction false} MarkersCountOccurrences(s: string)
    ensures Markers(s) == |Occurrences(s)|
    decreases |s|
  {
    hide Find;
    var found := Find(s, MARKER);
    if found.None? {
      NoOccurrences(s);
    } else {
      var i := found.value;
      MarkersCountOccurrences(s[i + 2..]);
      ShiftKeepsSize(Occurrences(s[i + 2..]), i + 2);
      OccurrencesAfterFirst(s, i);
    }
  }

  lemma NoOccurrences(s: string)
    ensures Find(s, MARKER).None? ==> Occurrences(s) == {}
  {
  }

  lemma MarkersDoNotOverlap(s: string, i: nat)
    ensures !(OccursAt(s, MARKER, i) && OccursAt(s, MARKER, i + 1))
  {
    if OccursAt(s, MARKER, i) {
      assert s[i + 2] == s[i..i + |MARKER|][2] == '[';
      assert i + 1 + |MARKER| <= |s| ==> s[i + 1..i + 1 + |MARKER|][1] == '[' != MARKER[1];
    }
  }

  function Shift(xs: set<nat>, distance: nat): (r: set<nat>)
    ensures forall y: nat :: y in r <==> y >= distance && y - distance in xs
  {
    set x | x in xs :: x + distance
  }

  lemma {:induction false} ShiftKeepsSize(xs: set<nat>, distance: nat)
    ensures |Shift(xs, distance)| == |xs|
    decreases |xs|
  {
    if xs == {} {
      assert Shift(xs, distance) == {};
    } else {
      var x :| x in xs;
      ShiftKeepsSize(xs - {x}, distance);
      assert Shift(xs, distance) == Shift(xs - {x}, distance) + {x + distance};
    }
  }

  /** Dropping the oldest group: up to the blank line before the next one. */
  method TrimOldestSourceGroup(source: string) returns (trimmed: bool, rest: string)
    ensures trimmed <==> Markers(source) > 0
    ensures !trimmed ==> rest == source
    ensures trimmed ==>
      && rest == source[Find(source, MARKER).value + 2..] && |rest| < |source|
      && StartsWith(rest, GROUP)
      && Markers(rest) == Markers(source) - 1
  {
    var next := Find(source, MARKER);
    if next.None? {
      return false, source;
    }
    var i := next.value;
    rest := source[i + 2..];
    assert source[i..i + |MARKER|] == MARKER && MARKER[2..] == GROUP;
    assert rest[..|GROUP|] == source[i..i + |MARKER|][2..];
    assert rest[0] == '[' && rest[0] in rest;
    trimmed := !Blank(rest);
  }

  // ---- Retrying ----

  datatype Reply = Overflow | Rejected | Summary(text: string)

  datatype Response =
    | Accepted(summary: string, trimmedGroups: nat)
    | TooLong
    | Failure

  /** The source of the n-th attempt: what remains after dropping n groups. */
  function Remaining(source: string, n: nat): string
    requires n <= Markers(source)
    decreases n
  {
    if n == 0 then source else
    var i := Find(source, MARKER).value;
    Remaining(source[i + 2..], n - 1)
  }

  lemma {:induction false} RemainingMarkers(source: string, n: nat)
    requires n <= Markers(source)
    ensures Markers(Remaining(source, n)) == Markers(source) - n
    ensures n < Markers(source) ==>
      var r := Remaining(source, n);
      Find(r, MARKER).Some? && Remaining(source, n + 1) == r[Find(r, MARKER).value + 2..]
    decreases n
  {
    if n > 0 {
      RemainingMarkers(source[Find(source, MARKER).value + 2..], n - 1);
    }
  }

  /** The retry loop of a summary request, against any provider: a function of the source it is sent
      and of the attempt. */
  method RequestSummary(original: string, provider: (nat, string) -> Reply)
    returns (response: Response, attempts: nat)
    ensures 1 <= attempts <= Markers(original) + 1
    // every attempt but the last overflowed, and each was sent one group less than the one before
    ensures forall n: nat :: n + 1 < attempts ==> provider(n, Remaining(original, n)) == Overflow
    ensures var last := provider(attempts - 1, Remaining(original, attempts - 1));
      && (response == TooLong <==> last == Overflow)
      && (response == TooLong ==> attempts == Markers(original) + 1)
      && (response == Failure <==> last == Rejected)
      && (response.Accepted? ==>
            && last == Summary(response.summary)
            && response.trimmedGroups == if attempts - 1 <= MAX_U32 then attempts - 1 else MAX_U32)
  {
    hide Find, Markers, OccursAt, StartsWith;
    var source, trimmedGroups := original, 0;
    attempts := 0;
    while true
      invariant attempts <= Markers(original) && source == Remaining(original, attempts)
      invariant trimmedGroups == if attempts <= MAX_U32 then attempts else MAX_U32
      invariant forall n: nat :: n < attempts ==> provider(n, Remaining(original, n)) == Overflow
      decreases Markers(original) - attempts
    {
      RemainingMarkers(original, attempts);
      var reply := provider(attempts, source);
      attempts := attempts + 1;
      if reply == Overflow {
        var trimmed, rest := TrimOldestSourceGroup(source);
        if !trimmed {
          return TooLong, attempts;
        }
        source := rest;
        trimmedGroups := if trimmedGroups < MAX_U32 then trimmedGroups + 1 else MAX_U32;
        continue;
      }
      if reply == Rejected {
        return Failure, attempts;
      }
      return Accepted(reply.text, trimmedGroups), attempts;
    }
  }
}
