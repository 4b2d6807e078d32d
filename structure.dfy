/**
 * The structure string: a colon-separated list of module names
 * ("Title:Separator:OS:Memory"), and the tokens ffPrintCommandOption cuts it into.
 *
 * The cutting loop scans for the next ':' from `startIndex` (ffStrbufNextIndexC,
 * which answers the string's length when no ':' follows), overwrites that position
 * with NUL and hands the C string that now starts at `startIndex` to the handler.
 * The handler therefore sees the characters from `startIndex` up to the first NUL,
 * which for a structure without NUL characters is exactly the colon-free span.
 */
module Structure {

  const NUL: char := '\0'
  const SEPARATOR: char := ':'

  /** ffStrbufNextIndexC: the first index at or after `start` holding `c`, or |s| if none does. */
  function NextIndex(s: seq<char>, start: nat, c: char): (r: nat)
    requires start <= |s|
    ensures start <= r <= |s|
    ensures r < |s| ==> s[r] == c
    decreases |s| - start
  {
    if start == |s| || s[start] == c then start else NextIndex(s, start + 1, c)
  }

  /** Nothing before the answer holds `c`. */
  lemma {:induction false} NextIndexSkips(s: seq<char>, start: nat, c: char)
    requires start <= |s|
    ensures forall i :: start <= i < NextIndex(s, start, c) ==> s[i] != c
    decreases |s| - start
  {
    if start < |s| && s[start] != c {
      NextIndexSkips(s, start + 1, c);
    }
  }

  /** The C string a `const char*` into `s` denotes: everything before the first NUL. */
  function UntilNul(s: seq<char>): (r: seq<char>)
    ensures |r| <= |s|
  {
    s[..NextIndex(s, 0, NUL)]
  }

  /** The C string is a prefix of `s` free of NUL, and it ends at a NUL or at the end of `s`. */
  lemma UntilNulIsPrefix(s: seq<char>)
    ensures var r := UntilNul(s);
      && r <= s
      && NUL !in r
      && (|r| < |s| ==> s[|r|] == NUL)
  {
    NextIndexSkips(s, 0, NUL);
  }

  /** The tokens handed to the handler when the loop starts at `start`, in order. */
  function TokensFrom(s: seq<char>, start: nat): (r: seq<string>)
    ensures start < |s| <==> |r| > 0
    decreases |s| - start
  {
    if start >= |s| then []
    else [UntilNul(s[start..NextIndex(s, start, SEPARATOR)])] + TokensFrom(s, NextIndex(s, start, SEPARATOR) + 1)
  }

  /** No token holds the separator (the scan stops at it) or a NUL (the C string ends there). */
  lemma {:induction false} TokensAreClean(s: seq<char>, start: nat)
    ensures forall k :: 0 <= k < |TokensFrom(s, start)| ==>
      SEPARATOR !in TokensFrom(s, start)[k] && NUL !in TokensFrom(s, start)[k]
    decreases |s| - start
  {
    if start < |s| {
      var colon := NextIndex(s, start, SEPARATOR);
      NextIndexSkips(s, start, SEPARATOR);
      UntilNulIsPrefix(s[start..colon]);
      TokensAreClean(s, colon + 1);
      var r := TokensFrom(s, start);
      assert r == [UntilNul(s[start..colon])] + TokensFrom(s, colon + 1);
      assert forall k :: 1 <= k < |r| ==> r[k] == TokensFrom(s, colon + 1)[k - 1];
    }
  }

  /** One step of the loop: the token at `start`, then the tokens after the next ':'. */
  lemma TokensFromUnfold(s: seq<char>, start: nat)
    requires start < |s|
    ensures var colon := NextIndex(s, start, SEPARATOR);
      TokensFrom(s, start) == [UntilNul(s[start..colon])] + TokensFrom(s, colon + 1)
  {
  }

  /** The tokens of a whole structure string. */
  function Tokens(s: seq<char>): seq<string> {
    TokensFrom(s, 0)
  }

  /** The tokens put back together with ':' between them. */
  function Join(tokens: seq<string>): string {
    if |tokens| == 0 then []
    else if |tokens| == 1 then tokens[0]
    else tokens[0] + [SEPARATOR] + Join(tokens[1..])
  }

  /** `s` without its last character when that character is a ':'. */
  function DropTrailingSeparator(s: string): string {
    if |s| > 0 && s[|s| - 1] == SEPARATOR then s[..|s| - 1] else s
  }

  /** NextIndex is determined by its contract: any index meeting it is the answer. */
  lemma NextIndexUnique(s: seq<char>, start: nat, c: char, r: nat)
    requires start <= r <= |s|
    requires r < |s| ==> s[r] == c
    requires forall i :: start <= i < r ==> s[i] != c
    ensures NextIndex(s, start, c) == r
  {
    NextIndexSkips(s, start, c);
  }

  /** The C string stops at the first NUL: reading past a NUL at `k` changes nothing. */
  lemma UntilNulStopsAt(s: seq<char>, k: nat)
    requires k < |s| && s[k] == NUL
    ensures UntilNul(s) == UntilNul(s[..k])
  {
    NextIndexSkips(s, 0, NUL);
    NextIndexUnique(s[..k], 0, NUL, NextIndex(s, 0, NUL));
  }

  /** A string without NUL reads back whole as a C string. */
  lemma UntilNulWhole(s: seq<char>)
    requires NUL !in s
    ensures UntilNul(s) == s
  {
  }

  /** Without NUL characters the C string handed over is the whole span up to the next ':'. */
  lemma FirstToken(s: seq<char>, start: nat)
    requires NUL !in s
    requires start < |s|
    ensures var colon := NextIndex(s, start, SEPARATOR);
      TokensFrom(s, start) == [s[start..colon]] + TokensFrom(s, colon + 1)
  {
    var colon := NextIndex(s, start, SEPARATOR);
    assert NUL !in s[start..colon] by {
      forall i | start <= i < colon ensures s[i] != NUL {
        assert s[i] in s;
      }
    }
    UntilNulWhole(s[start..colon]);
  }

  /**
   * The first token handed over from `start` is the longest colon-free run of
   * characters beginning there: it stops at a ':' or at the end of the string.
   */
  lemma TokenIsMaximalSpan(s: seq<char>, start: nat)
    requires NUL !in s
    requires start < |s|
    ensures var t := TokensFrom(s, start)[0];
      && start + |t| <= |s|
      && t == s[start..start + |t|]
      && SEPARATOR !in t
      && (start + |t| == |s| || s[start + |t|] == SEPARATOR)
  {
    FirstToken(s, start);
    TokensAreClean(s, start);
  }

  /** The plain split at every ':', with no C-string reading: the reference for NUL-free structures. */
  function SpansFrom(s: seq<char>, start: nat): (r: seq<string>)
    ensures start < |s| <==> |r| > 0
    decreases |s| - start
  {
    if start >= |s| then []
    else
      var colon := NextIndex(s, start, SEPARATOR);
      [s[start..colon]] + SpansFrom(s, colon + 1)
  }

  /** Without NUL characters the handler sees exactly the plain split. */
  lemma {:induction false} TokensAreSpans(s: seq<char>, start: nat)
    requires NUL !in s
    ensures TokensFrom(s, start) == SpansFrom(s, start)
    decreases |s| - start
  {
    if start < |s| {
      FirstToken(s, start);
      TokensAreSpans(s, NextIndex(s, start, SEPARATOR) + 1);
    }
  }

  /** Joining the spans from `start` restores the rest of the string, minus one trailing ':'. */
  lemma {:induction false} JoinSpansFrom(s: seq<char>, start: nat)
    requires start <= |s|
    ensures Join(SpansFrom(s, start)) == DropTrailingSeparator(s[start..])
    decreases |s| - start
  {
    if start < |s| {
      var colon := NextIndex(s, start, SEPARATOR);
      if colon + 1 < |s| {
        JoinSpansFrom(s, colon + 1);
        SplitAtSeparator(s, start, colon);
        JoinStep(s[start..colon], SpansFrom(s, colon + 1), s[colon + 1..]);
      } else {
        JoinLastSpan(s, start, colon);
      }
    }
  }

  /** The last span: it runs to the end of the string, or to a final ':' that is then dropped. */
  lemma JoinLastSpan(s: seq<char>, start: nat, colon: nat)
    requires start < |s|
    requires colon == NextIndex(s, start, SEPARATOR) && colon + 1 >= |s|
    ensures Join(SpansFrom(s, start)) == DropTrailingSeparator(s[start..])
  {
    var x := s[start..colon];
    LastSpan(s, start, colon);
    assert Join([x]) == x;
    if colon + 1 == |s| {
      assert s[start..] == x + [SEPARATOR];
      DropTrailingOne(x);
    } else {
      NextIndexSkips(s, start, SEPARATOR);
      assert s[start..] == x;
    }
  }

  lemma LastSpan(s: seq<char>, start: nat, colon: nat)
    requires start < |s|
    requires colon == NextIndex(s, start, SEPARATOR) && colon + 1 >= |s|
    ensures SpansFrom(s, start) == [s[start..colon]]
  {
    assert SpansFrom(s, colon + 1) == [];
  }

  lemma DropTrailingOne(x: string)
    ensures DropTrailingSeparator(x + [SEPARATOR]) == x
  {
    assert (x + [SEPARATOR])[..|x|] == x;
  }

  /** One more token in front: the ':' between it and the rest is kept. */
  lemma JoinStep(token: string, rest: seq<string>, tail: string)
    requires |rest| > 0 && |tail| > 0
    requires Join(rest) == DropTrailingSeparator(tail)
    ensures Join([token] + rest) == DropTrailingSeparator((token + [SEPARATOR]) + tail)
  {
    JoinCons(token, rest);
    DropTrailingAfter(token + [SEPARATOR], tail);
  }

  lemma JoinCons(token: string, rest: seq<string>)
    requires |rest| > 0
    ensures Join([token] + rest) == token + [SEPARATOR] + Join(rest)
  {
    assert ([token] + rest)[1..] == rest;
  }

  /** Only the last character can be dropped, so a non-empty tail shields the head. */
  lemma DropTrailingAfter(head: string, tail: string)
    requires |tail| > 0
    ensures DropTrailingSeparator(head + tail) == head + DropTrailingSeparator(tail)
  {
    if tail[|tail| - 1] == SEPARATOR {
      assert (head + tail)[..|head + tail| - 1] == head + tail[..|tail| - 1];
    }
  }

  lemma SplitAtSeparator(s: seq<char>, start: nat, colon: nat)
    requires start <= colon < |s| && s[colon] == SEPARATOR
    ensures s[start..] == (s[start..colon] + [SEPARATOR]) + s[colon + 1..]
  {
  }

  lemma JoinTokens(s: seq<char>)
    requires NUL !in s
    ensures Join(Tokens(s)) == DropTrailingSeparator(s)
  {
    TokensAreSpans(s, 0);
    JoinSpansFrom(s, 0);
  }

  /** Putting a character in front shifts every index the scan finds by one. */
  lemma {:induction false} NextIndexShift(x: char, s: seq<char>, start: nat, c: char)
    requires start <= |s|
    ensures NextIndex([x] + s, start + 1, c) == NextIndex(s, start, c) + 1
  {
    var n := NextIndex(s, start, c);
    var t := [x] + s;
    NextIndexSkips(s, start, c);
    forall i | start + 1 <= i < n + 1 ensures t[i] != c {
      assert t[i] == s[i - 1];
    }
    NextIndexUnique(t, start + 1, c, n + 1);
  }

  lemma {:induction false} LeadingSeparatorFrom(s: seq<char>, start: nat)
    requires start <= |s|
    ensures TokensFrom([SEPARATOR] + s, start + 1) == TokensFrom(s, start)
    decreases |s| - start
  {
    if start < |s| {
      var colon := NextIndex(s, start, SEPARATOR);
      if colon < |s| {
        LeadingSeparatorFrom(s, colon + 1);
      }
      LeadingSeparatorStep(s, start, colon);
    }
  }

  lemma LeadingSeparatorStep(s: seq<char>, start: nat, colon: nat)
    requires start < |s| && colon == NextIndex(s, start, SEPARATOR)
    requires colon < |s| ==> TokensFrom([SEPARATOR] + s, colon + 2) == TokensFrom(s, colon + 1)
    ensures TokensFrom([SEPARATOR] + s, start + 1) == TokensFrom(s, start)
  {
    var t := [SEPARATOR] + s;
    NextIndexShift(SEPARATOR, s, start, SEPARATOR);
    SliceAfterPrefix(SEPARATOR, s, start, colon);
    assert TokensFrom(t, start + 1) == [UntilNul(s[start..colon])] + TokensFrom(t, colon + 2);
    assert TokensFrom(s, start) == [UntilNul(s[start..colon])] + TokensFrom(s, colon + 1);
  }

  lemma SliceAfterPrefix(x: char, s: seq<char>, i: nat, j: nat)
    requires i <= j <= |s|
    ensures ([x] + s)[i + 1..j + 1] == s[i..j]
  {
  }

  /** A leading ':' hands over an empty first token and then the tokens of the rest. */
  lemma LeadingSeparator(s: seq<char>)
    ensures Tokens([SEPARATOR] + s) == [[]] + Tokens(s)
  {
    LeadingSeparatorFrom(s, 0);
  }

  /** Appending a ':' does not move the first ':' of the original string, if it has one. */
  lemma NextIndexAppend(s: seq<char>, start: nat, x: char, c: char)
    requires start <= |s|
    requires x == c
    ensures NextIndex(s + [x], start, c) == NextIndex(s, start, c)
  {
    var n := NextIndex(s, start, c);
    var t := s + [x];
    NextIndexSkips(s, start, c);
    forall i | start <= i < n ensures t[i] != c {
      assert t[i] == s[i];
    }
    NextIndexUnique(t, start, c, n);
  }

  lemma {:induction false} TrailingSeparatorFrom(s: seq<char>, start: nat)
    requires start < |s|
    requires s[|s| - 1] != SEPARATOR
    ensures TokensFrom(s + [SEPARATOR], start) == TokensFrom(s, start)
    decreases |s| - start
  {
    var colon := NextIndex(s, start, SEPARATOR);
    if colon + 1 < |s| {
      TrailingSeparatorFrom(s, colon + 1);
    }
    assert colon + 1 != |s|;
    TrailingSeparatorStep(s, start, colon);
  }

  lemma TrailingSeparatorStep(s: seq<char>, start: nat, colon: nat)
    requires start < |s| && colon == NextIndex(s, start, SEPARATOR) && colon + 1 != |s|
    requires colon + 1 < |s| ==> TokensFrom(s + [SEPARATOR], colon + 1) == TokensFrom(s, colon + 1)
    ensures TokensFrom(s + [SEPARATOR], start) == TokensFrom(s, start)
  {
    NextIndexAppend(s, start, SEPARATOR, SEPARATOR);
    SliceBeforeSuffix(s, SEPARATOR, start, colon);
    if colon == |s| {
      TrailingLastToken(s, start);
    } else {
      TrailingInnerToken(s, start, colon);
    }
  }

  lemma TrailingLastToken(s: seq<char>, start: nat)
    requires start < |s| && NextIndex(s, start, SEPARATOR) == |s|
    requires NextIndex(s + [SEPARATOR], start, SEPARATOR) == |s|
    requires (s + [SEPARATOR])[start..|s|] == s[start..|s|]
    ensures TokensFrom(s + [SEPARATOR], start) == TokensFrom(s, start)
  {
    TokensFromUnfold(s + [SEPARATOR], start);
    TokensFromUnfold(s, start);
  }

  lemma TrailingInnerToken(s: seq<char>, start: nat, colon: nat)
    requires start < |s| && colon + 1 < |s|
    requires NextIndex(s, start, SEPARATOR) == colon == NextIndex(s + [SEPARATOR], start, SEPARATOR)
    requires UntilNul((s + [SEPARATOR])[start..colon]) == UntilNul(s[start..colon])
    requires TokensFrom(s + [SEPARATOR], colon + 1) == TokensFrom(s, colon + 1)
    ensures TokensFrom(s + [SEPARATOR], start) == TokensFrom(s, start)
  {
    TokensFromUnfold(s + [SEPARATOR], start);
    TokensFromUnfold(s, start);
  }

  lemma SliceBeforeSuffix(s: seq<char>, x: char, i: nat, j: nat)
    requires i <= j <= |s|
    ensures (s + [x])[i..j] == s[i..j]
  {
  }

  /** One ':' at the end of a non-empty structure adds no token. */
  lemma TrailingSeparator(s: seq<char>)
    requires |s| > 0 && s[|s| - 1] != SEPARATOR
    ensures Tokens(s + [SEPARATOR]) == Tokens(s)
  {
    TrailingSeparatorFrom(s, 0);
  }

  /** The scan only looks at the characters from `start` on. */
  lemma ScanUnchanged(t: seq<char>, s: seq<char>, start: nat, c: char)
    requires |t| == |s| && start <= |s|
    requires forall i :: start <= i < |s| ==> t[i] == s[i]
    ensures NextIndex(t, start, c) == NextIndex(s, start, c)
  {
    NextIndexSkips(s, start, c);
    NextIndexUnique(t, start, c, NextIndex(s, start, c));
  }

  /**
   * After the NUL is written at `colon`, the C string at `start` is the token
   * between `start` and `colon`, as long as those characters are the original ones.
   */
  lemma CutToken(t: seq<char>, s: seq<char>, start: nat, colon: nat)
    requires start <= colon < |t| && colon <= |s|
    requires t[colon] == NUL
    requires forall i :: start <= i < colon ==> t[i] == s[i]
    ensures UntilNul(t[start..]) == UntilNul(s[start..colon])
  {
    UntilNulStopsAt(t[start..], colon - start);
    assert t[start..][..colon - start] == s[start..colon];
  }

  /** The buffer once every ':' before `upTo` (and before `length`) has become a NUL. */
  function Cut(orig: seq<char>, upTo: int, length: int): (r: seq<char>)
    ensures |r| == |orig|
  {
    seq(|orig|, i requires 0 <= i < |orig| =>
      if i < upTo && i < length && orig[i] == SEPARATOR then NUL else orig[i])
  }

  /** Before the first turn nothing is cut. */
  lemma CutNone(orig: seq<char>, length: nat)
    ensures Cut(orig, 0, length) == orig
  {
  }

  /** Past the end of the structure the cut is complete. */
  lemma CutDone(orig: seq<char>, upTo: nat, length: nat)
    requires upTo >= length
    ensures Cut(orig, upTo, length) == Cut(orig, length, length)
  {
  }

  /** The cut of a whole buffer, read up to the length, is the cut of the structure alone. */
  lemma CutPrefix(buffer: seq<char>, structure: seq<char>, length: nat)
    requires length <= |buffer| && buffer[..length] == structure
    ensures Cut(buffer, length, length)[..length] == Cut(structure, length, length)
  {
  }

  /** Writing the NUL at the colon the scan from `start` found extends the cut past it. */
  lemma CutStep(orig: seq<char>, length: nat, start: nat, colon: nat)
    requires length < |orig| && orig[length] == NUL
    requires start <= length
    requires colon == NextIndex(orig[..length], start, SEPARATOR)
    ensures Cut(orig, start, length)[colon := NUL] == Cut(orig, colon + 1, length)
  {
    NextIndexSkips(orig[..length], start, SEPARATOR);
    var a := Cut(orig, start, length)[colon := NUL];
    var b := Cut(orig, colon + 1, length);
    forall i | 0 <= i < |orig| ensures a[i] == b[i] {
      if start <= i < colon {
        assert orig[..length][i] != SEPARATOR;
      }
    }
  }

  /** The part of the cut buffer the scan from `start` reads is still the original. */
  lemma CutScan(orig: seq<char>, length: nat, start: nat)
    requires length < |orig| && start <= length
    ensures NextIndex(Cut(orig, start, length)[..length], start, SEPARATOR) == NextIndex(orig[..length], start, SEPARATOR)
  {
    ScanUnchanged(Cut(orig, start, length)[..length], orig[..length], start, SEPARATOR);
  }

  /** Once the NUL is at the colon, the C string at `start` is the original span up to it. */
  lemma CutRead(orig: seq<char>, length: nat, start: nat, colon: nat)
    requires length < |orig| && orig[length] == NUL
    requires start <= length
    requires colon == NextIndex(orig[..length], start, SEPARATOR)
    ensures UntilNul(Cut(orig, colon + 1, length)[start..]) == UntilNul(orig[..length][start..colon])
  {
    var t := Cut(orig, colon + 1, length);
    NextIndexSkips(orig[..length], start, SEPARATOR);
    forall i | start <= i < colon ensures t[i] == orig[..length][i] {
      assert orig[..length][i] != SEPARATOR;
    }
    CutToken(t, orig[..length], start, colon);
  }
}
