/**
 * The handful of Python `str` operations the backend relies on: `isspace`
 * (which is also what `\s` matches in a `str` pattern), `strip`,
 * `split(sep)`, `splitlines`, `sep.join` and `lower`.
 */
module Text {

  /** Python's `str.isspace` on one code point, and so also the `\s` class of `re`. */
  predicate IsSpace(c: char) {
    || ('\U{9}' <= c <= '\U{D}')
    || ('\U{1C}' <= c <= '\U{20}')
    || c == '\U{85}' || c == '\U{A0}' || c == '\U{1680}'
    || ('\U{2000}' <= c <= '\U{200A}')
    || c == '\U{2028}' || c == '\U{2029}' || c == '\U{202F}'
    || c == '\U{205F}' || c == '\U{3000}'
  }

  /** The code points at which `str.splitlines` breaks a line (`\r\n` counts as one break). */
  predicate IsLineBreak(c: char) {
    || ('\U{A}' <= c <= '\U{D}')
    || ('\U{1C}' <= c <= '\U{1E}')
    || c == '\U{85}' || c == '\U{2028}' || c == '\U{2029}'
  }

  predicate AllSpace(s: string) {
    forall i :: 0 <= i < |s| ==> IsSpace(s[i])
  }

  predicate NoLineBreak(s: string) {
    forall i :: 0 <= i < |s| ==> !IsLineBreak(s[i])
  }

  /** Neither end of `s` is whitespace: what `strip` leaves behind. */
  predicate IsStripped(s: string) {
    s == [] || (!IsSpace(s[0]) && !IsSpace(s[|s| - 1]))
  }

  predicate StartsWith(s: string, prefix: string) {
    |prefix| <= |s| && s[..|prefix|] == prefix
  }

  // ---------------------------------------------------------------- strip

  /** The number of whitespace code points at the start of `s`. */
  function LeadingSpaces(s: string): (k: nat)
    ensures k <= |s|
    decreases |s|
  {
    if s != [] && IsSpace(s[0]) then LeadingSpaces(s[1..]) + 1 else 0
  }

  /** The first `LeadingSpaces(s)` code points are whitespace and the next one is not. */
  lemma {:induction false} LeadingSpacesSound(s: string)
    ensures forall j :: 0 <= j < LeadingSpaces(s) ==> IsSpace(s[j])
    ensures LeadingSpaces(s) < |s| ==> !IsSpace(s[LeadingSpaces(s)])
    decreases |s|
  {
    if s != [] && IsSpace(s[0]) {
      var t := s[1..];
      LeadingSpacesSound(t);
      forall j | 1 <= j < LeadingSpaces(s) ensures IsSpace(s[j]) {
        assert s[j] == t[j - 1];
      }
      if LeadingSpaces(s) < |s| {
        assert s[LeadingSpaces(s)] == t[LeadingSpaces(t)];
      }
    }
  }

  /** Any index with the defining properties of `LeadingSpaces` is `LeadingSpaces`. */
  lemma {:induction false} LeadingSpacesUnique(s: string, k: nat)
    requires k <= |s| && (forall j :: 0 <= j < k ==> IsSpace(s[j])) && (k < |s| ==> !IsSpace(s[k]))
    ensures LeadingSpaces(s) == k
    decreases |s|
  {
    if k > 0 {
      var t := s[1..];
      forall j | 0 <= j < k - 1 ensures IsSpace(t[j]) {
        assert t[j] == s[j + 1];
      }
      if k - 1 < |t| {
        assert t[k - 1] == s[k];
      }
      LeadingSpacesUnique(t, k - 1);
    }
  }

  /** The length of `s` once its trailing whitespace is dropped. */
  function ContentEnd(s: string): (e: nat)
    ensures e <= |s|
    decreases |s|
  {
    if s != [] && IsSpace(s[|s| - 1]) then ContentEnd(s[..|s| - 1]) else |s|
  }

  /** The code points from `ContentEnd(s)` on are whitespace and the one before is not. */
  lemma {:induction false} ContentEndSound(s: string)
    ensures forall j :: ContentEnd(s) <= j < |s| ==> IsSpace(s[j])
    ensures ContentEnd(s) > 0 ==> !IsSpace(s[ContentEnd(s) - 1])
    decreases |s|
  {
    if s != [] && IsSpace(s[|s| - 1]) {
      var t := s[..|s| - 1];
      ContentEndSound(t);
      forall j | ContentEnd(s) <= j < |s| - 1 ensures IsSpace(s[j]) {
        assert s[j] == t[j];
      }
      if ContentEnd(s) > 0 {
        assert s[ContentEnd(s) - 1] == t[ContentEnd(t) - 1];
      }
    }
  }

  /** `r` sits inside `s` with nothing but whitespace on either side of it. */
  ghost predicate SpaceAround(s: string, r: string) {
    exists i :: 0 <= i <= |s| - |r| && s[i..i + |r|] == r && AllSpace(s[..i]) && AllSpace(s[i + |r|..])
  }

  /** Python's `str.strip()`: `s` with the whitespace run at each end removed. */
  function Strip(s: string): (r: string)
    ensures |r| <= |s|
  {
    var i := LeadingSpaces(s);
    s[i..i + ContentEnd(s[i..])]
  }

  /**
   * What `strip` leaves: a slice of `s` whose two sides are all whitespace and
   * whose own ends are not, empty exactly when `s` is blank, and `s` itself
   * when `s` is already stripped.
   */
  lemma StripSound(s: string)
    ensures IsStripped(Strip(s))
    ensures SpaceAround(s, Strip(s))
    ensures Strip(s) == [] <==> AllSpace(s)
    ensures IsStripped(s) ==> Strip(s) == s
  {
    StripIsStripped(s);
    StripSpaceAround(s);
    StripBlank(s);
    StripKeepsStripped(s);
  }

  /** Neither end of a stripped string is whitespace. */
  lemma StripIsStripped(s: string)
    ensures IsStripped(Strip(s))
  {
    var i, j := StripIsSlice(s);
    StripBounds(s, i, j);
    StripEnds(s, i, j);
  }

  /** The stripped string sits in `s` with only whitespace around it. */
  lemma StripSpaceAround(s: string)
    ensures SpaceAround(s, Strip(s))
  {
    var i, j := StripIsSlice(s);
    StripBounds(s, i, j);
    SpaceAroundAt(s, i, j);
  }

  /** Stripping leaves nothing exactly when `s` is blank. */
  lemma StripBlank(s: string)
    ensures Strip(s) == [] <==> AllSpace(s)
  {
    var i, j := StripIsSlice(s);
    StripBounds(s, i, j);
    StripBlankIff(s, i, j);
  }

  /** An already stripped string is left as it is. */
  lemma StripKeepsStripped(s: string)
    ensures IsStripped(s) ==> Strip(s) == s
  {
    var i, j := StripIsSlice(s);
    StripStable(s, i, j);
  }

  /** The bounds `Strip` cuts at: whitespace outside them, none at either end inside. */
  lemma StripBounds(s: string, i: nat, j: nat)
    requires i == LeadingSpaces(s) && j == i + ContentEnd(s[i..])
    ensures j <= |s|
    ensures AllSpace(s[..i]) && AllSpace(s[j..])
    ensures i < j ==> !IsSpace(s[i]) && !IsSpace(s[j - 1])
    ensures i == j ==> i == |s|
  {
    var t := s[i..];
    var e := ContentEnd(t);
    LeadingSpacesPrefix(s);
    ContentEndSuffix(t);
    LeadingSpacesSound(s);
    ContentEndSound(t);
    assert s[j..] == t[e..];
    if i < |s| {
      assert t[0] == s[i];
    }
    if i < j {
      assert s[j - 1] == t[e - 1];
    }
  }

  /** The leading whitespace run is all whitespace. */
  lemma LeadingSpacesPrefix(s: string)
    ensures AllSpace(s[..LeadingSpaces(s)])
  {
    var i := LeadingSpaces(s);
    LeadingSpacesSound(s);
    forall k | 0 <= k < i ensures IsSpace(s[..i][k]) {
      assert s[..i][k] == s[k];
    }
  }

  /** The trailing whitespace run is all whitespace. */
  lemma ContentEndSuffix(t: string)
    ensures AllSpace(t[ContentEnd(t)..])
  {
    var e := ContentEnd(t);
    ContentEndSound(t);
    forall k | 0 <= k < |t| - e ensures IsSpace(t[e..][k]) {
      assert t[e..][k] == t[e + k];
    }
  }

  /** The slice `s[i..j]` with whitespace on either side sits in `s` with only whitespace around it. */
  lemma SpaceAroundAt(s: string, i: nat, j: nat)
    requires i <= j <= |s| && AllSpace(s[..i]) && AllSpace(s[j..])
    ensures SpaceAround(s, s[i..j])
  {
    assert s[i..i + |s[i..j]|] == s[i..j];
  }

  /** The stripped slice has no whitespace at either end. */
  lemma StripEnds(s: string, i: nat, j: nat)
    requires i <= j <= |s|
    requires i < j ==> !IsSpace(s[i]) && !IsSpace(s[j - 1])
    ensures IsStripped(s[i..j])
  {
    if i < j {
      assert s[i..j][0] == s[i] && s[i..j][j - i - 1] == s[j - 1];
    }
  }

  /** The stripped slice is empty exactly when `s` is all whitespace. */
  lemma StripBlankIff(s: string, i: nat, j: nat)
    requires i <= j <= |s| && AllSpace(s[..i])
    requires i < j ==> !IsSpace(s[i])
    requires i == j ==> i == |s|
    ensures s[i..j] == [] <==> AllSpace(s)
  {
    if i == j {
      assert s[..i] == s;
    }
  }

  /** An already stripped string is its own stripped slice. */
  lemma StripStable(s: string, i: nat, j: nat)
    requires i == LeadingSpaces(s) && j == i + ContentEnd(s[i..])
    ensures IsStripped(s) ==> s[i..j] == s
  {
    if IsStripped(s) && s != [] {
      assert i == 0 && s[i..] == s;
      assert j == |s|;
    }
  }

  /** `Strip(s)` is the slice `s[i..j]`. */
  lemma StripIsSlice(s: string) returns (i: nat, j: nat)
    ensures i == LeadingSpaces(s) && j == i + ContentEnd(s[i..])
    ensures i <= j <= |s| && Strip(s) == s[i..j]
  {
    i := LeadingSpaces(s);
    j := i + ContentEnd(s[i..]);
  }

  /** A code point that `s` lacks is lacking from `Strip(s)` as well. */
  lemma StripAvoids(s: string, c: char)
    requires c !in s
    ensures c !in Strip(s)
  {
    var i, j := StripIsSlice(s);
    forall k | 0 <= k < j - i ensures s[i..j][k] != c {
      assert s[i..j][k] == s[i + k];
    }
  }

  /** Stripping a line-break-free string leaves it line-break-free. */
  lemma StripNoLineBreak(s: string)
    requires NoLineBreak(s)
    ensures NoLineBreak(Strip(s))
  {
    var i, j := StripIsSlice(s);
    forall k | 0 <= k < j - i ensures !IsLineBreak(s[i..j][k]) {
      assert s[i..j][k] == s[i + k];
    }
  }

  // ---------------------------------------------------------------- split / join

  /** `sep.join(pieces)`. */
  function Join(pieces: seq<string>, sep: string): string
  {
    if |pieces| == 0 then []
    else if |pieces| == 1 then pieces[0]
    else pieces[0] + sep + Join(pieces[1..], sep)
  }

  /** The first index of `c` in `s`, or `|s|` when `c` does not occur. */
  function IndexOf(s: string, c: char): (i: nat)
    ensures i <= |s|
    decreases |s|
  {
    if s == [] then 0
    else if s[0] == c then 0
    else IndexOf(s[1..], c) + 1
  }

  /** No `c` comes before `IndexOf(s, c)`, and `c` is there unless that is the end. */
  lemma {:induction false} IndexOfSound(s: string, c: char)
    ensures forall j :: 0 <= j < IndexOf(s, c) ==> s[j] != c
    ensures IndexOf(s, c) < |s| ==> s[IndexOf(s, c)] == c
    decreases |s|
  {
    if s != [] && s[0] != c {
      var t := s[1..];
      IndexOfSound(t, c);
      forall j | 1 <= j < IndexOf(s, c) ensures s[j] != c {
        assert s[j] == t[j - 1];
      }
      if IndexOf(s, c) < |s| {
        assert s[IndexOf(s, c)] == t[IndexOf(t, c)];
      }
    }
  }

  /** Any index with the defining properties of `IndexOf` is `IndexOf`. */
  lemma {:induction false} IndexOfUnique(s: string, c: char, k: nat)
    requires k <= |s| && (forall j :: 0 <= j < k ==> s[j] != c) && (k < |s| ==> s[k] == c)
    ensures IndexOf(s, c) == k
    decreases |s|
  {
    if k > 0 {
      var t := s[1..];
      forall j | 0 <= j < k - 1 ensures t[j] != c {
        assert t[j] == s[j + 1];
      }
      if k - 1 < |t| {
        assert t[k - 1] == s[k];
      }
      IndexOfUnique(t, c, k - 1);
    }
  }

  /**
   * Python's `s.split(sep)` for a one-character separator: the pieces between
   * separators, never fewer than one, which joined again by `sep` give back `s`.
   */
  function SplitOn(s: string, sep: char): (r: seq<string>)
    ensures |r| >= 1
    decreases |s|
  {
    var i := IndexOf(s, sep);
    if i == |s| then [s]
    else [s[..i]] + SplitOn(s[i + 1..], sep)
  }

  /** No piece of a split contains the separator, and joining the pieces by it gives back `s`. */
  lemma {:induction false} SplitOnSound(s: string, sep: char)
    ensures forall p :: p in SplitOn(s, sep) ==> sep !in p
    ensures Join(SplitOn(s, sep), [sep]) == s
    decreases |s|
  {
    var i := IndexOf(s, sep);
    IndexOfSound(s, sep);
    forall k | 0 <= k < i ensures s[..i][k] != sep {
      assert s[..i][k] == s[k];
    }
    if i == |s| {
      assert s[..i] == s;
      assert SplitOn(s, sep) == [s];
    } else {
      var rest := SplitOn(s[i + 1..], sep);
      SplitOnSound(s[i + 1..], sep);
      assert SplitOn(s, sep) == [s[..i]] + rest;
      assert s == s[..i] + [sep] + s[i + 1..];
    }
  }

  /** Splitting a joined list of separator-free pieces gives the pieces back. */
  lemma {:induction false} SplitOnJoin(pieces: seq<string>, sep: char)
    requires |pieces| >= 1
    requires forall p :: p in pieces ==> sep !in p
    ensures SplitOn(Join(pieces, [sep]), sep) == pieces
    decreases |pieces|
  {
    var s := Join(pieces, [sep]);
    var p := pieces[0];
    if |pieces| == 1 {
      assert forall j :: 0 <= j < |p| ==> p[j] in p;
      IndexOfUnique(p, sep, |p|);
    } else {
      var tail := Join(pieces[1..], [sep]);
      assert s == p + [sep] + tail;
      assert s[..|p|] == p;
      assert forall j :: 0 <= j < |p| ==> s[j] == p[j] && p[j] in p;
      IndexOfUnique(s, sep, |p|);
      assert s[|p| + 1..] == tail;
      assert forall q :: q in pieces[1..] ==> q in pieces;
      SplitOnJoin(pieces[1..], sep);
      assert SplitOn(s, sep) == [p] + SplitOn(tail, sep);
      assert pieces == [p] + pieces[1..];
    }
  }

  /** Searching a concatenation: the first hit in `a`, or else `|a|` plus the first hit in `t`. */
  lemma {:induction false} IndexOfConcat(a: string, t: string, c: char)
    ensures IndexOf(a + t, c) == if IndexOf(a, c) < |a| then IndexOf(a, c) else |a| + IndexOf(t, c)
    decreases |a|
  {
    if a != [] && a[0] != c {
      assert (a + t)[1..] == a[1..] + t;
      IndexOfConcat(a[1..], t, c);
    } else if a == [] {
      assert a + t == t;
    }
  }

  /** Splitting distributes over a concatenation at a separator. */
  lemma {:induction false} SplitOnAppend(a: string, b: string, sep: char)
    ensures SplitOn(a + [sep] + b, sep) == SplitOn(a, sep) + SplitOn(b, sep)
    decreases |a|
  {
    var i := IndexOf(a, sep);
    if i == |a| {
      SplitOnAppendLast(a, b, sep);
    } else {
      SplitOnAppend(a[i + 1..], b, sep);
      SplitOnAppendStep(a, b, sep, i);
    }
  }

  /** The separator added after `a` is the first one unless `a` has its own. */
  lemma IndexOfAppendSep(a: string, b: string, sep: char)
    ensures IndexOf(a + [sep] + b, sep) == IndexOf(a, sep)
  {
    assert a + [sep] + b == a + ([sep] + b);
    IndexOfConcat(a, [sep] + b, sep);
  }

  /** `SplitOnAppend` when `a` holds no separator. */
  lemma SplitOnAppendLast(a: string, b: string, sep: char)
    requires IndexOf(a, sep) == |a|
    ensures SplitOn(a + [sep] + b, sep) == SplitOn(a, sep) + SplitOn(b, sep)
  {
    var s := a + [sep] + b;
    var i := |a|;
    IndexOfAppendSep(a, b, sep);
    SplitOnFirst(s, sep, i);
    assert s[..i] == a && s[i + 1..] == b;
    assert a[..i] == a;
  }

  /** `SplitOnAppend` when `a` has a separator at `i`, given the case for the rest of `a`. */
  lemma SplitOnAppendStep(a: string, b: string, sep: char, i: nat)
    requires i == IndexOf(a, sep) && i < |a|
    requires SplitOn(a[i + 1..] + [sep] + b, sep) == SplitOn(a[i + 1..], sep) + SplitOn(b, sep)
    ensures SplitOn(a + [sep] + b, sep) == SplitOn(a, sep) + SplitOn(b, sep)
  {
    var rest := a[i + 1..];
    var head := [a[..i]];
    SplitOnAppendFirst(a, b, sep, i);
    SplitOnFirst(a, sep, i);
    ConcatAssoc(head, SplitOn(rest, sep), SplitOn(b, sep));
  }

  /** The first piece of `a + [sep] + b` is that of `a` when `a` has a separator. */
  lemma SplitOnAppendFirst(a: string, b: string, sep: char, i: nat)
    requires i == IndexOf(a, sep) && i < |a|
    ensures SplitOn(a + [sep] + b, sep) == [a[..i]] + SplitOn(a[i + 1..] + [sep] + b, sep)
  {
    var s := a + [sep] + b;
    IndexOfAppendSep(a, b, sep);
    SplitOnFirst(s, sep, i);
    assert s[..i] == a[..i];
    assert s[i + 1..] == a[i + 1..] + [sep] + b;
  }

  /** Concatenation is associative. */
  lemma ConcatAssoc<T>(x: seq<T>, y: seq<T>, z: seq<T>)
    ensures x + (y + z) == (x + y) + z
  {
  }

  /** One step of `split`: the piece before the first separator, then the split of the rest. */
  lemma SplitOnFirst(s: string, sep: char, i: nat)
    requires i == IndexOf(s, sep) && i < |s|
    ensures SplitOn(s, sep) == [s[..i]] + SplitOn(s[i + 1..], sep)
  {
  }

  // ---------------------------------------------------------------- splitlines

  /** The first index of a line break in `s`, or `|s|` when there is none. */
  function LineBreakIndex(s: string): (i: nat)
    ensures i <= |s|
    decreases |s|
  {
    if s == [] then 0
    else if IsLineBreak(s[0]) then 0
    else LineBreakIndex(s[1..]) + 1
  }

  /** No line break comes before `LineBreakIndex(s)`, and one is there unless that is the end. */
  lemma {:induction false} LineBreakIndexSound(s: string)
    ensures forall j :: 0 <= j < LineBreakIndex(s) ==> !IsLineBreak(s[j])
    ensures LineBreakIndex(s) < |s| ==> IsLineBreak(s[LineBreakIndex(s)])
    decreases |s|
  {
    if s != [] && !IsLineBreak(s[0]) {
      var t := s[1..];
      LineBreakIndexSound(t);
      forall j | 1 <= j < LineBreakIndex(s) ensures !IsLineBreak(s[j]) {
        assert s[j] == t[j - 1];
      }
      if LineBreakIndex(s) < |s| {
        assert s[LineBreakIndex(s)] == t[LineBreakIndex(t)];
      }
    }
  }

  /** Any index with the defining properties of `LineBreakIndex` is `LineBreakIndex`. */
  lemma {:induction false} LineBreakIndexUnique(s: string, k: nat)
    requires k <= |s| && (forall j :: 0 <= j < k ==> !IsLineBreak(s[j])) && (k < |s| ==> IsLineBreak(s[k]))
    ensures LineBreakIndex(s) == k
    decreases |s|
  {
    if k > 0 {
      var t := s[1..];
      forall j | 0 <= j < k - 1 ensures !IsLineBreak(t[j]) {
        assert t[j] == s[j + 1];
      }
      if k - 1 < |t| {
        assert t[k - 1] == s[k];
      }
      LineBreakIndexUnique(t, k - 1);
    }
  }

  /**
   * Python's `str.splitlines()`: the lines of `s` without their terminators;
   * `\r\n` ends one line, and a final terminator opens no further line.
   */
  function SplitLines(s: string): (r: seq<string>)
    ensures |r| <= |s|
    decreases |s|
  {
    if s == [] then []
    else
      var i := LineBreakIndex(s);
      if i == |s| then [s]
      else
        var next := if s[i] == '\r' && i + 1 < |s| && s[i + 1] == '\n' then i + 2 else i + 1;
        [s[..i]] + SplitLines(s[next..])
  }

  /** No line that `splitlines` returns holds a line break. */
  lemma {:induction false} SplitLinesSound(s: string)
    ensures forall l :: l in SplitLines(s) ==> NoLineBreak(l)
    decreases |s|
  {
    if s != [] {
      var i := LineBreakIndex(s);
      LineBreakIndexSound(s);
      forall k | 0 <= k < i ensures !IsLineBreak(s[..i][k]) {
        assert s[..i][k] == s[k];
      }
      if i < |s| {
        var next := if s[i] == '\r' && i + 1 < |s| && s[i + 1] == '\n' then i + 2 else i + 1;
        SplitLinesSound(s[next..]);
        assert SplitLines(s) == [s[..i]] + SplitLines(s[next..]);
      } else {
        assert s[..i] == s;
        assert SplitLines(s) == [s[..i]];
      }
    }
  }

  /**
   * `brk` is one line terminator as `splitlines` reads it in front of `next`:
   * `\r\n`, or a single break that is not a `\r` directly followed by `\n`.
   */
  predicate Terminator(brk: string, next: string) {
    brk == "\r\n" || (|brk| == 1 && IsLineBreak(brk[0]) && !(brk[0] == '\r' && next != [] && next[0] == '\n'))
  }

  /** A break-free string is one line, or no line at all when it is empty. */
  lemma SplitLinesLine(a: string)
    requires NoLineBreak(a)
    ensures SplitLines(a) == if a == [] then [] else [a]
  {
    if a != [] {
      LineBreakIndexUnique(a, |a|);
      assert a[..|a|] == a;
    }
  }

  /**
   * A line, its terminator and the rest: the line comes out whole, whether
   * it is empty or blank, and the rest is split on its own.
   * With `SplitLinesLine` this determines `splitlines` on every string.
   */
  lemma SplitLinesCons(a: string, brk: string, b: string)
    requires NoLineBreak(a) && Terminator(brk, b)
    ensures SplitLines(a + brk + b) == [a] + SplitLines(b)
  {
    var s := a + brk + b;
    var i := |a|;
    forall j | 0 <= j < i ensures !IsLineBreak(s[j]) {
      assert s[j] == a[j];
    }
    assert s[i] == brk[0];
    LineBreakIndexUnique(s, i);
    assert s[..i] == a;
    var next := if s[i] == '\r' && i + 1 < |s| && s[i + 1] == '\n' then i + 2 else i + 1;
    if brk == "\r\n" {
      assert next == i + 2;
    } else {
      assert next == i + 1 by {
        if s[i] == '\r' && i + 1 < |s| {
          assert s[i + 1] == b[0];
        }
      }
    }
    assert s[next..] == b;
  }

  /** Lines joined by `\n` split back into the same lines, when each is non-empty and break-free. */
  lemma {:induction false} SplitLinesJoin(lines: seq<string>)
    requires forall l :: l in lines ==> l != [] && NoLineBreak(l)
    ensures SplitLines(Join(lines, "\n")) == lines
    decreases |lines|
  {
    if |lines| == 1 {
      var l := lines[0];
      assert NoLineBreak(l);
      LineBreakIndexUnique(l, |l|);
    } else if |lines| > 1 {
      var l := lines[0];
      var tail := Join(lines[1..], "\n");
      var s := Join(lines, "\n");
      assert s == l + "\n" + tail;
      assert l in lines;
      assert forall j :: 0 <= j < |l| ==> s[j] == l[j];
      LineBreakIndexUnique(s, |l|);
      assert s[|l| + 1..] == tail;
      assert s[..|l|] == l;
      assert forall l :: l in lines[1..] ==> l in lines;
      SplitLinesJoin(lines[1..]);
      assert SplitLines(s) == [l] + SplitLines(tail);
      assert lines == [l] + lines[1..];
    }
  }

  // ---------------------------------------------------------------- keep stripped

  /** `[p.strip() for p in pieces if p.strip()]`. */
  function KeepStripped(pieces: seq<string>): (r: seq<string>)
    ensures |r| <= |pieces|
    decreases |pieces|
  {
    if pieces == [] then []
    else
      var rest := KeepStripped(pieces[1..]);
      var head := Strip(pieces[0]);
      if head == [] then rest else [head] + rest
  }

  /** Every kept piece is non-empty, stripped, and the strip of some input piece. */
  lemma {:induction false} KeepStrippedSound(pieces: seq<string>)
    ensures forall e :: e in KeepStripped(pieces) ==> e != [] && IsStripped(e)
    ensures forall e :: e in KeepStripped(pieces) ==> exists p :: p in pieces && Strip(p) == e
    decreases |pieces|
  {
    if pieces != [] {
      var rest := KeepStripped(pieces[1..]);
      var head := Strip(pieces[0]);
      StripIsStripped(pieces[0]);
      KeepStrippedSound(pieces[1..]);
      assert forall q :: q in pieces[1..] ==> q in pieces;
      assert pieces[0] in pieces;
      assert KeepStripped(pieces) == if head == [] then rest else [head] + rest;
    }
  }

  /** Keeping the stripped pieces distributes over concatenation, so their order is kept. */
  lemma {:induction false} KeepStrippedAppend(a: seq<string>, b: seq<string>)
    ensures KeepStripped(a + b) == KeepStripped(a) + KeepStripped(b)
    decreases |a|
  {
    if a != [] {
      assert (a + b)[1..] == a[1..] + b;
      KeepStrippedAppend(a[1..], b);
    } else {
      assert a + b == b;
    }
  }

  /** Pieces that are already non-empty and stripped are all kept, unchanged. */
  lemma {:induction false} KeepStrippedClean(pieces: seq<string>)
    requires forall p :: p in pieces ==> p != [] && IsStripped(p)
    ensures KeepStripped(pieces) == pieces
    decreases |pieces|
  {
    if pieces != [] {
      var p := pieces[0];
      assert p in pieces;
      StripKeepsStripped(p);
      assert forall q :: q in pieces[1..] ==> q in pieces;
      KeepStrippedClean(pieces[1..]);
      assert KeepStripped(pieces) == [p] + KeepStripped(pieces[1..]);
      assert pieces == [p] + pieces[1..];
    }
  }

  /** A single piece is kept, stripped, exactly when it is not blank. */
  lemma KeepStrippedOne(p: string)
    ensures KeepStripped([p]) == if AllSpace(p) then [] else [Strip(p)]
  {
    assert [p][1..] == [];
    StripBlank(p);
  }

  // ---------------------------------------------------------------- lower

  /** `str.lower` on one code point; only ASCII letters are folded. */
  function LowerChar(c: char): char {
    if 'A' <= c <= 'Z' then (c as int + 32) as char else c
  }

  /** `str.lower` over ASCII: every code point folded on its own, the length kept. */
  function Lower(s: string): (r: string)
    ensures |r| == |s|
    ensures forall i :: 0 <= i < |s| ==> r[i] == LowerChar(s[i])
  {
    seq(|s|, i requires 0 <= i < |s| => LowerChar(s[i]))
  }

  /** A lower-case letter absent from `s` in both cases is absent from `Lower(s)`. */
  lemma LowerAvoids(s: string, c: char)
    requires 'a' <= c <= 'z' && c !in s && (c as int - 32) as char !in s
    ensures c !in Lower(s)
  {
    forall i | 0 <= i < |s| ensures Lower(s)[i] != c {
      assert s[i] in s;
    }
  }

  /** No ASCII capital survives lowering, every other code point is kept, and each capital becomes its small letter. */
  lemma LowerSound(s: string)
    ensures |Lower(s)| == |s|
    ensures forall i :: 0 <= i < |s| ==> !('A' <= Lower(s)[i] <= 'Z')
    ensures forall i :: 0 <= i < |s| && !('A' <= s[i] <= 'Z') ==> Lower(s)[i] == s[i]
    ensures forall i :: 0 <= i < |s| && 'A' <= s[i] <= 'Z' ==> Lower(s)[i] as int == s[i] as int + 32
  {
  }

  /** Lowering twice is lowering once. */
  lemma LowerIdempotent(s: string)
    ensures Lower(Lower(s)) == Lower(s)
  {
  }

  /** Lowering works code point by code point, so it distributes over concatenation. */
  lemma LowerAppend(a: string, b: string)
    ensures Lower(a + b) == Lower(a) + Lower(b)
  {
  }
}
