/** The redaction of the published results: every value of .env becomes its
    name, in one left-to-right pass over a text. */
module Substitute {
  import opened Wrappers
  import StableSort

  /** A value is never empty: an empty one is skipped before the pass. */
  datatype Pair<T> = Pair(value: seq<T>, name: seq<T>)

  ghost predicate NoneIsEmpty<T>(pairs: seq<Pair<T>>) {
    forall i :: 0 <= i < |pairs| ==> pairs[i].value != []
  }

  predicate Occurs<T(==)>(text: seq<T>, value: seq<T>, at: nat) {
    at + |value| <= |text| && text[at..at + |value|] == value
  }

  /** The text is the value with so much before it and something after it. */
  lemma OccursIsExact<T(!new)>(text: seq<T>, value: seq<T>, at: nat)
    ensures Occurs(text, value, at) <==>
              exists before: seq<T>, after: seq<T> :: text == before + value + after && |before| == at
  {
    if Occurs(text, value, at) {
      assert text == text[..at] + value + text[at + |value|..];
    }
    if before: seq<T>, after: seq<T> :| text == before + value + after && |before| == at {
      assert text[at..at + |value|] == value;
    }
  }

  /** The first occurrence at or after start, or -1. */
  function Find<T(==)>(text: seq<T>, value: seq<T>, start: nat): (at: int)
    ensures at == -1 || (start <= at && Occurs(text, value, at))
    ensures forall earlier: nat :: start <= earlier && (at < 0 || earlier < at) ==> !Occurs(text, value, earlier)
    decreases |text| - start
  {
    if start + |value| > |text| then -1
    else if Occurs(text, value, start) then start
    else Find(text, value, start + 1)
  }

  // ---------- The naive scan ----------

  /** The first pair whose value occurs at this place. */
  function MatchAt<T(==)>(text: seq<T>, pairs: seq<Pair<T>>, at: nat): (chosen: Option<nat>)
    ensures chosen.Some? ==> chosen.value < |pairs| && Occurs(text, pairs[chosen.value].value, at)
    ensures forall i :: 0 <= i < (if chosen.Some? then chosen.value else |pairs|) ==> !Occurs(text, pairs[i].value, at)
  {
    if pairs == [] then None
    else
      var earlier := MatchAt(text, pairs[..|pairs| - 1], at);
      if earlier.Some? then earlier
      else if Occurs(text, pairs[|pairs| - 1].value, at) then Some(|pairs| - 1) else None
  }

  /** The text from this place on, one place at a time: a value that starts here
      becomes its name and is stepped over, any other element stays. A name that
      was written is never read again. */
  function Scan<T(==)>(text: seq<T>, pairs: seq<Pair<T>>, at: nat): seq<T>
    requires NoneIsEmpty(pairs) && at <= |text|
    decreases |text| - at
  {
    if at == |text| then []
    else
      match MatchAt(text, pairs, at)
      case Some(i) => pairs[i].name + Scan(text, pairs, at + |pairs[i].value|)
      case None => [text[at]] + Scan(text, pairs, at + 1)
  }

  // ---------- The cached positions ----------

  /** Every cached position is the first occurrence at or after the cursor. */
  ghost predicate AreFirsts<T>(text: seq<T>, pairs: seq<Pair<T>>, positions: seq<int>, cursor: nat) {
    |positions| == |pairs| && forall i :: 0 <= i < |pairs| ==> IsFirst(text, pairs[i].value, positions[i], cursor)
  }

  ghost predicate IsFirst<T>(text: seq<T>, value: seq<T>, position: int, cursor: nat) {
    && (position == -1 || (cursor <= position && Occurs(text, value, position)))
    && (forall at: nat :: cursor <= at && (position < 0 || at < position) ==> !Occurs(text, value, at))
  }

  /** The earliest position of the leading count, on a tie that of the earlier pair. */
  ghost predicate IsChoice(positions: seq<int>, count: nat, chosen: int)
    requires count <= |positions|
  {
    && chosen < count
    && (chosen < 0 ==> forall i :: 0 <= i < count ==> positions[i] < 0)
    && (chosen >= 0 ==>
          && positions[chosen] >= 0
          && (forall i :: 0 <= i < count && positions[i] >= 0 ==> positions[chosen] <= positions[i])
          && (forall i :: 0 <= i < chosen && positions[i] >= 0 ==> positions[chosen] < positions[i]))
  }

  function Joined<T>(parts: seq<seq<T>>): seq<T> {
    if parts == [] then [] else Joined(parts[..|parts| - 1]) + parts[|parts| - 1]
  }

  method Substitute<T(==)>(text: seq<T>, pairs: seq<Pair<T>>) returns (replaced: seq<T>)
    requires NoneIsEmpty(pairs)
    ensures replaced == Scan(text, pairs, 0)
  {
    hide Find, Scan, Occurs, MatchAt, Joined, NoneIsEmpty;
    var positions := seq(|pairs|, i requires 0 <= i < |pairs| => Find(text, pairs[i].value, 0));
    var parts: seq<seq<T>> := [];
    var cursor := 0;
    NothingJoined<T>();
    while true
      invariant cursor <= |text| && AreFirsts(text, pairs, positions, cursor)
      invariant Joined(parts) + Scan(text, pairs, cursor) == Scan(text, pairs, 0)
      decreases |text| - cursor
    {
      var chosen := Choose(positions);
      if chosen < 0 {
        NothingLeft(text, pairs, positions, cursor);
        break;
      }
      var at := positions[chosen];
      NextReplacement(text, pairs, positions, cursor, chosen);
      var kept := text[cursor..at];
      var next := at + |pairs[chosen].value|;
      TwoMoreParts(parts, kept, pairs[chosen].name, Scan(text, pairs, next));
      parts := parts + [kept];
      parts := parts + [pairs[chosen].name];
      positions := Refresh(text, pairs, positions, cursor, next);
      cursor := next;
    }
    OneMorePart(parts, text[cursor..]);
    parts := parts + [text[cursor..]];
    return Joined(parts);
  }

  method Choose(positions: seq<int>) returns (chosen: int)
    ensures IsChoice(positions, |positions|, chosen)
  {
    chosen := -1;
    for index := 0 to |positions|
      invariant IsChoice(positions, index, chosen)
    {
      if positions[index] >= 0 && (chosen < 0 || positions[index] < positions[chosen]) {
        chosen := index;
      }
    }
  }

  /** Searches again only for the values whose cached position is behind. */
  method Refresh<T(==)>(text: seq<T>, pairs: seq<Pair<T>>, stale: seq<int>, before: nat, cursor: nat)
    returns (positions: seq<int>)
    requires before <= cursor && AreFirsts(text, pairs, stale, before)
    ensures AreFirsts(text, pairs, positions, cursor)
  {
    hide Find, Occurs;
    positions := stale;
    for index := 0 to |pairs|
      invariant |positions| == |pairs|
      invariant forall i :: 0 <= i < index ==> IsFirst(text, pairs[i].value, positions[i], cursor)
      invariant forall i :: index <= i < |pairs| ==> positions[i] == stale[i]
    {
      assert IsFirst(text, pairs[index].value, stale[index], before);
      if 0 <= positions[index] < cursor {
        positions := positions[index := Find(text, pairs[index].value, cursor)];
      }
    }
  }

  /** A text that holds no value stays as it is. */
  lemma UntouchedWithoutValues<T>(text: seq<T>, pairs: seq<Pair<T>>)
    requires NoneIsEmpty(pairs)
    requires forall at: nat :: at < |text| ==> Free(text, pairs, at)
    ensures Scan(text, pairs, 0) == text
  {
    CopiesUnmatched(text, pairs, 0, |text|);
    assert text[0..|text|] == text;
  }

  lemma NothingJoined<T>()
    ensures Joined<T>([]) == []
  {
  }

  lemma OneMorePart<T>(parts: seq<seq<T>>, part: seq<T>)
    ensures Joined(parts + [part]) == Joined(parts) + part
  {
    assert (parts + [part])[..|parts|] == parts;
  }

  lemma TwoMoreParts<T>(parts: seq<seq<T>>, kept: seq<T>, name: seq<T>, rest: seq<T>)
    ensures Joined(parts + [kept] + [name]) + rest == Joined(parts) + (kept + name + rest)
  {
    OneMorePart(parts, kept);
    OneMorePart(parts + [kept], name);
  }

  lemma CopiesOne<T>(text: seq<T>, pairs: seq<Pair<T>>, at: nat)
    requires NoneIsEmpty(pairs) && at < |text|
    requires forall i :: 0 <= i < |pairs| ==> !Occurs(text, pairs[i].value, at)
    ensures Scan(text, pairs, at) == [text[at]] + Scan(text, pairs, at + 1)
  {
    hide Occurs, NoneIsEmpty;
    assert MatchAt(text, pairs, at).None?;
  }

  /** No value starts at this place. */
  ghost predicate Free<T>(text: seq<T>, pairs: seq<Pair<T>>, at: nat) {
    forall i :: 0 <= i < |pairs| ==> !Occurs(text, pairs[i].value, at)
  }

  /** Over a stretch where no value starts, the scan copies. */
  lemma {:induction false} CopiesUnmatched<T>(text: seq<T>, pairs: seq<Pair<T>>, start: nat, end: nat)
    requires NoneIsEmpty(pairs) && start <= end <= |text|
    requires forall at: nat :: start <= at < end ==> Free(text, pairs, at)
    ensures Scan(text, pairs, start) == text[start..end] + Scan(text, pairs, end)
    decreases end - start
  {
    hide Scan, NoneIsEmpty, Occurs;
    if start < end {
      assert Free(text, pairs, start);
      CopiesOne(text, pairs, start);
      CopiesUnmatched(text, pairs, start + 1, end);
      assert text[start..end] == [text[start]] + text[start + 1..end];
    }
  }

  lemma NoneBefore<T>(text: seq<T>, pairs: seq<Pair<T>>, positions: seq<int>, cursor: nat, at: nat)
    requires AreFirsts(text, pairs, positions, cursor) && cursor <= at
    requires forall i :: 0 <= i < |positions| && positions[i] >= 0 ==> at < positions[i]
    ensures Free(text, pairs, at)
  {
    hide Occurs;
    forall i | 0 <= i < |pairs| ensures !Occurs(text, pairs[i].value, at) {
      assert IsFirst(text, pairs[i].value, positions[i], cursor);
    }
  }

  lemma NothingLeft<T>(text: seq<T>, pairs: seq<Pair<T>>, positions: seq<int>, cursor: nat)
    requires NoneIsEmpty(pairs) && cursor <= |text| && AreFirsts(text, pairs, positions, cursor)
    requires forall i :: 0 <= i < |positions| ==> positions[i] < 0
    ensures Scan(text, pairs, cursor) == text[cursor..]
  {
    hide Occurs;
    forall at: nat | cursor <= at < |text| ensures Free(text, pairs, at) {
      NoneBefore(text, pairs, positions, cursor, at);
    }
    CopiesUnmatched(text, pairs, cursor, |text|);
    assert text[cursor..|text|] == text[cursor..];
  }

  /** The chosen position is the next place where the scan replaces, and the
      chosen pair is the one it takes there. */
  lemma NextReplacement<T>(text: seq<T>, pairs: seq<Pair<T>>, positions: seq<int>, cursor: nat, chosen: nat)
    requires NoneIsEmpty(pairs) && cursor <= |text| && AreFirsts(text, pairs, positions, cursor)
    requires chosen < |pairs| && IsChoice(positions, |positions|, chosen)
    ensures var at, next := positions[chosen], positions[chosen] + |pairs[chosen].value|;
            && cursor <= at < next <= |text|
            && Scan(text, pairs, cursor) == text[cursor..at] + pairs[chosen].name + Scan(text, pairs, next)
  {
    hide Occurs, Scan, MatchAt;
    var at: nat := positions[chosen];
    assert IsFirst(text, pairs[chosen].value, at, cursor);
    OccursInside(text, pairs[chosen].value, at);
    forall place: nat | cursor <= place < at ensures Free(text, pairs, place) {
      NoneBefore(text, pairs, positions, cursor, place);
    }
    CopiesUnmatched(text, pairs, cursor, at);
    forall i | 0 <= i < chosen ensures !Occurs(text, pairs[i].value, at) {
      assert IsFirst(text, pairs[i].value, positions[i], cursor);
    }
    ReplacesMatched(text, pairs, at, chosen);
    var name, rest := pairs[chosen].name, Scan(text, pairs, at + |pairs[chosen].value|);
    assert text[cursor..at] + (name + rest) == text[cursor..at] + name + rest;
  }

  lemma OccursInside<T>(text: seq<T>, value: seq<T>, at: nat)
    requires Occurs(text, value, at)
    ensures at + |value| <= |text|
  {
  }

  lemma ReplacesMatched<T>(text: seq<T>, pairs: seq<Pair<T>>, at: nat, chosen: nat)
    requires NoneIsEmpty(pairs) && chosen < |pairs| && Occurs(text, pairs[chosen].value, at)
    requires forall i :: 0 <= i < chosen ==> !Occurs(text, pairs[i].value, at)
    ensures at + |pairs[chosen].value| <= |text|
    ensures Scan(text, pairs, at) == pairs[chosen].name + Scan(text, pairs, at + |pairs[chosen].value|)
  {
    assert pairs[chosen].value != [];
    OccursInside(text, pairs[chosen].value, at);
    hide Occurs;
    assert MatchAt(text, pairs, at) == Some(chosen);
  }

  // ---------- Longer values first ----------

  /** The longer value first. The shell counts characters and the scan compares
      bytes, so the length is a parameter. */
  function LongerFirst<T>(length: seq<T> -> nat): (Pair<T>, Pair<T>) -> bool {
    (a: Pair<T>, b: Pair<T>) => length(a.value) >= length(b.value)
  }

  /** The first pair of this value. */
  function FirstOf<T(==)>(pairs: seq<Pair<T>>, value: seq<T>): Option<Pair<T>> {
    if pairs == [] then None else if pairs[0].value == value then Some(pairs[0]) else FirstOf(pairs[1..], value)
  }

  lemma {:induction false} FirstOfIsFirst<T>(pairs: seq<Pair<T>>, i: nat)
    requires i < |pairs| && forall k :: 0 <= k < i ==> pairs[k].value != pairs[i].value
    ensures FirstOf(pairs, pairs[i].value) == Some(pairs[i])
  {
    if i > 0 {
      assert pairs[1..][i - 1] == pairs[i];
      FirstOfIsFirst(pairs[1..], i - 1);
    }
  }

  function NonEmpty<T(==)>(entries: seq<Pair<T>>): seq<Pair<T>> {
    if entries == [] then []
    else NonEmpty(entries[..|entries| - 1])
         + (if entries[|entries| - 1].value == [] then [] else [entries[|entries| - 1]])
  }

  /** The pairs of the pass: the entries of .env with a value, sorted. */
  function PairsOf<T(==)>(entries: seq<Pair<T>>, length: seq<T> -> nat): seq<Pair<T>> {
    StableSort.Sort(LongerFirst(length), NonEmpty(entries))
  }

  lemma LengthsAreOrdered<T(!new)>(length: seq<T> -> nat)
    ensures StableSort.TotalPreorder(LongerFirst(length))
  {
  }

  lemma PairsAreEntries<T(!new)>(entries: seq<Pair<T>>, length: seq<T> -> nat)
    ensures forall pair :: pair in PairsOf(entries, length) <==> pair in entries && pair.value != []
    ensures NoneIsEmpty(PairsOf(entries, length))
  {
    LengthsAreOrdered(length);
    StableSort.SortIsStable(LongerFirst(length), NonEmpty(entries));
    SameMembers(StableSort.Sort(LongerFirst(length), NonEmpty(entries)), NonEmpty(entries));
    NonEmptyMembers(entries);
    hide NonEmpty, StableSort.Sort, StableSort.TotalPreorder, StableSort.IsStableSort;
    var pairs := PairsOf(entries, length);
    forall i | 0 <= i < |pairs| ensures pairs[i].value != [] {
      assert pairs[i] in pairs;
    }
  }

  lemma {:induction false} NonEmptyMembers<T>(entries: seq<Pair<T>>)
    ensures forall pair :: pair in NonEmpty(entries) <==> pair in entries && pair.value != []
  {
    if entries != [] {
      var n := |entries| - 1;
      NonEmptyMembers(entries[..n]);
      assert entries == entries[..n] + [entries[n]];
    }
  }

  lemma {:induction false} FirstOfNonEmpty<T>(entries: seq<Pair<T>>, value: seq<T>)
    requires value != []
    ensures FirstOf(NonEmpty(entries), value) == FirstOf(entries, value)
  {
    if entries != [] {
      var n := |entries| - 1;
      var last := if entries[n].value == [] then [] else [entries[n]];
      FirstOfNonEmpty(entries[..n], value);
      FirstOfJoined(entries[..n], [entries[n]], value);
      FirstOfJoined(NonEmpty(entries[..n]), last, value);
      assert entries == entries[..n] + [entries[n]];
    }
  }

  lemma {:induction false} FirstOfJoined<T>(a: seq<Pair<T>>, b: seq<Pair<T>>, value: seq<T>)
    ensures FirstOf(a + b, value) == if FirstOf(a, value).Some? then FirstOf(a, value) else FirstOf(b, value)
  {
    if a == [] {
      assert a + b == b;
    } else {
      assert (a + b)[1..] == a[1..] + b;
      FirstOfJoined(a[1..], b, value);
    }
  }

  /** The whole redaction of one text. */
  method Redact<T(!new, ==)>(text: seq<T>, entries: seq<Pair<T>>, length: seq<T> -> nat) returns (replaced: seq<T>)
    ensures NoneIsEmpty(PairsOf(entries, length))
    ensures replaced == Scan(text, PairsOf(entries, length), 0)
  {
    hide NoneIsEmpty, Scan, StableSort.Sort, NonEmpty;
    PairsAreEntries(entries, length);
    replaced := Substitute(text, PairsOf(entries, length));
  }

  /** At every place the scan takes the longest value that starts there, and of
      the names of that value the one that .env gives first. */
  lemma LongestIsTaken<T(!new)>(text: seq<T>, entries: seq<Pair<T>>, length: seq<T> -> nat, at: nat)
    requires forall a: seq<T>, b: seq<T> :: a < b ==> length(a) < length(b)
    ensures var pairs := PairsOf(entries, length);
            var chosen := MatchAt(text, pairs, at);
            && (chosen.None? <==>
                  forall k :: 0 <= k < |entries| && entries[k].value != [] ==> !Occurs(text, entries[k].value, at))
            && (chosen.Some? ==>
                  && (forall k :: 0 <= k < |entries| && Occurs(text, entries[k].value, at) ==>
                     entries[k].value <= pairs[chosen.value].value)
                  && Some(pairs[chosen.value]) == FirstOf(entries, pairs[chosen.value].value))
  {
    var pairs := PairsOf(entries, length);
    PairsAreEntries(entries, length);
    LengthsAreOrdered(length);
    StableSort.SortIsStable(LongerFirst(length), NonEmpty(entries));
    hide StableSort.Sort, StableSort.Peers, StableSort.TotalPreorder, MatchAt, NonEmpty, PairsOf, Occurs, FirstOf;
    var chosen := MatchAt(text, pairs, at);
    if chosen.None? {
      forall k | 0 <= k < |entries| && entries[k].value != [] ensures !Occurs(text, entries[k].value, at) {
        assert entries[k] in pairs;
      }
    } else {
      var i := chosen.value;
      assert pairs[i] in pairs;
      PairsAreSorted(entries, length);
      forall k | 0 <= k < |entries| && Occurs(text, entries[k].value, at) ensures entries[k].value <= pairs[i].value {
        if entries[k].value != [] {
          assert entries[k] in pairs;
          ShorterFollows(text, pairs, length, entries[k], at, i);
        }
      }
      EarliestOfValue(text, NonEmpty(entries), pairs, length, at, i);
      FirstOfNonEmpty(entries, pairs[i].value);
    }
  }

  lemma PairsAreSorted<T>(entries: seq<Pair<T>>, length: seq<T> -> nat)
    ensures PairsOf(entries, length) == StableSort.Sort(LongerFirst(length), NonEmpty(entries))
  {
  }

  /** No pair after the first match has a longer value at the same place. */
  lemma ShorterFollows<T(!new)>(text: seq<T>, pairs: seq<Pair<T>>, length: seq<T> -> nat, pair: Pair<T>, at: nat,
                         i: nat)
    requires forall a: seq<T>, b: seq<T> :: a < b ==> length(a) < length(b)
    requires StableSort.Sorted(LongerFirst(length), pairs) && i < |pairs| && Occurs(text, pairs[i].value, at)
    requires forall k :: 0 <= k < i ==> !Occurs(text, pairs[k].value, at)
    requires pair in pairs && Occurs(text, pair.value, at)
    ensures pair.value <= pairs[i].value
  {
  }

  lemma SameMembers<T>(a: seq<T>, b: seq<T>)
    requires multiset(a) == multiset(b)
    ensures forall x :: x in a <==> x in b
  {
    assert forall x :: x in a <==> x in multiset(a);
    assert forall x :: x in b <==> x in multiset(b);
  }

  lemma EarliestOfValue<T(!new)>(text: seq<T>, entries: seq<Pair<T>>, pairs: seq<Pair<T>>, length: seq<T> -> nat,
                          at: nat, i: nat)
    requires i < |pairs| && Occurs(text, pairs[i].value, at)
    requires forall k :: 0 <= k < i ==> !Occurs(text, pairs[k].value, at)
    requires StableSort.IsStableSort(LongerFirst(length), entries, pairs)
    ensures FirstOf(entries, pairs[i].value) == Some(pairs[i])
  {
    FirstOfIsFirst(pairs, i);
    PeersKeepFirst(length, pairs, pairs[i]);
    PeersKeepFirst(length, entries, pairs[i]);
  }

  lemma {:induction false} PeersKeepFirst<T>(length: seq<T> -> nat, xs: seq<Pair<T>>, x: Pair<T>)
    ensures FirstOf(StableSort.Peers(LongerFirst(length), xs, x), x.value) == FirstOf(xs, x.value)
  {
    if xs != [] {
      var le, rest := LongerFirst(length), xs[1..];
      PeersKeepFirst(length, rest, x);
      var own := if le(x, xs[0]) && le(xs[0], x) then [xs[0]] else [];
      assert (own + StableSort.Peers(le, rest, x))[|own|..] == StableSort.Peers(le, rest, x);
    }
  }
}
