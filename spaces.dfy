/** remove_spaces_unquoted: the in-place deletion of whitespace outside
    double-quoted regions, and the specification it meets. */
module Spaces {
  import opened Utils

  /** The text remove_spaces_unquoted leaves of `s` when it starts with the
      quote state `quoted`: a whitespace character is dropped when it lies
      outside quotes, every other character (quotes included) is kept, and each
      quote flips the state. */
  function Strip(s: seq<char>, quoted: bool): (r: seq<char>)
    ensures |r| <= |s|
  {
    if s == [] then []
    else if !quoted && CharIsSpace(s[0]) then Strip(s[1..], quoted)
      else if s[0] == '"' then [s[0]] + Strip(s[1..], !quoted)
      else [s[0]] + Strip(s[1..], quoted)
  }

  /** The number of double quotes in `s`. */
  function Quotes(s: seq<char>): nat
  {
    if s == [] then 0 else (if s[0] == '"' then 1 else 0) + Quotes(s[1..])
  }

  /** The quote state after reading `s` from the state `quoted`. */
  function QuotedAfter(s: seq<char>, quoted: bool): bool
  {
    if Quotes(s) % 2 == 0 then quoted else !quoted
  }

  /** Whether `s`, read from the quote state `quoted`, has no whitespace outside quotes. */
  predicate NoUnquotedSpace(s: seq<char>, quoted: bool)
  {
    forall k :: 0 <= k < |s| && CharIsSpace(s[k]) ==> QuotedAfter(s[..k], quoted)
  }

  /** All whitespace characters of `s` removed, wherever they are. */
  function Unspaced(s: seq<char>): seq<char>
  {
    if s == [] then []
    else if CharIsSpace(s[0]) then Unspaced(s[1..])
    else [s[0]] + Unspaced(s[1..])
  }

  lemma {:induction false} QuotesAppend(s: seq<char>, t: seq<char>)
    ensures Quotes(s + t) == Quotes(s) + Quotes(t)
  {
    if s == [] {
      assert s + t == t;
    } else {
      assert (s + t)[0] == s[0];
      assert (s + t)[1..] == s[1..] + t;
      QuotesAppend(s[1..], t);
    }
  }

  lemma Assoc(a: seq<char>, b: seq<char>, c: seq<char>)
    ensures a + (b + c) == a + b + c
  {
  }

  lemma {:induction false} QuotesCons(c: char, t: seq<char>)
    ensures Quotes([c] + t) == (if c == '"' then 1 else 0) + Quotes(t)
  {
    assert ([c] + t)[0] == c && ([c] + t)[1..] == t;
  }

  /** One character, then the rest from the quote state that character leaves. */
  lemma StripCons(c: char, t: seq<char>, quoted: bool)
    ensures Strip([c] + t, quoted) ==
      (if CharIsSpace(c) && !quoted then [] else [c]) + Strip(t, if c == '"' then !quoted else quoted)
  {
    assert ([c] + t)[0] == c && ([c] + t)[1..] == t;
  }

  /** Stripping works piecewise: the second piece starts in the quote state the first leaves. */
  lemma {:induction false} StripAppend(s: seq<char>, t: seq<char>, quoted: bool)
    ensures Strip(s + t, quoted) == Strip(s, quoted) + Strip(t, QuotedAfter(s, quoted))
  {
    if s == [] {
      assert s + t == t;
    } else {
      var c, u := s[0], s[1..];
      var q' := if c == '"' then !quoted else quoted;
      assert s == [c] + u;
      assert s + t == [c] + (u + t);
      StripCons(c, u + t, quoted);
      StripCons(c, u, quoted);
      StripAppend(u, t, q');
      QuotesCons(c, u);
      Assoc(if CharIsSpace(c) && !quoted then [] else [c], Strip(u, q'), Strip(t, QuotedAfter(s, quoted)));
    }
  }

  /** Stripping never introduces a character: one absent from `s` is absent from the result. */
  lemma {:induction false} StripAbsent(s: seq<char>, quoted: bool, c: char)
    requires c !in s
    ensures c !in Strip(s, quoted)
  {
    if s != [] {
      assert c !in s[1..];
      StripAbsent(s[1..], if s[0] == '"' then !quoted else quoted, c);
    }
  }

  /** Reading `s` then `t` leaves the quote state that reading `t` from the state after `s` leaves. */
  lemma QuotedAfterAppend(s: seq<char>, t: seq<char>, quoted: bool)
    ensures QuotedAfter(s + t, quoted) == QuotedAfter(t, QuotedAfter(s, quoted))
  {
    QuotesAppend(s, t);
  }

  /** A single character: dropped when it is whitespace outside quotes; a quote flips the state. */
  lemma StripOne(c: char, quoted: bool)
    ensures Strip([c], quoted) == if CharIsSpace(c) && !quoted then [] else [c]
    ensures QuotedAfter([c], quoted) == if c == '"' then !quoted else quoted
  {
    assert [c][1..] == [];
    QuotesCons(c, []);
  }

  /** What happens to each character: the one at `k` is dropped exactly when it is
      whitespace and the quotes before it are balanced (relative to `quoted`);
      everything before and after it is stripped on its own. */
  lemma {:induction false} StripAt(s: seq<char>, k: nat, quoted: bool)
    requires k < |s|
    ensures Strip(s, quoted) ==
      Strip(s[..k], quoted)
      + (if CharIsSpace(s[k]) && !QuotedAfter(s[..k], quoted) then [] else [s[k]])
      + Strip(s[k + 1..], QuotedAfter(s[..k + 1], quoted))
  {
    var pre, mid, post := s[..k], [s[k]], s[k + 1..];
    var q := QuotedAfter(pre, quoted);
    assert s == pre + (mid + post);
    assert s[..k + 1] == pre + mid;
    StripAppend(pre, mid + post, quoted);
    StripAppend(mid, post, q);
    StripOne(s[k], q);
    QuotedAfterAppend(pre, mid, quoted);
    var x, y := Strip(mid, q), Strip(post, QuotedAfter(s[..k + 1], quoted));
    assert Strip(s, quoted) == Strip(pre, quoted) + (x + y);
    Assoc(Strip(pre, quoted), x, y);
  }

  /** Prepending a character that is not whitespace outside quotes keeps a text
      free of such whitespace. */
  lemma {:induction false} NoUnquotedSpaceCons(c: char, t: seq<char>, quoted: bool)
    requires !(CharIsSpace(c) && !quoted)
    requires NoUnquotedSpace(t, if c == '"' then !quoted else quoted)
    ensures NoUnquotedSpace([c] + t, quoted)
  {
    var r := [c] + t;
    forall k | 0 <= k < |r| && CharIsSpace(r[k])
      ensures QuotedAfter(r[..k], quoted)
    {
      if k == 0 {
        assert r[..k] == [];
      } else {
        assert r[k] == t[k - 1];
        assert r[..k] == [c] + t[..k - 1];
        QuotesCons(c, t[..k - 1]);
      }
    }
  }

  /** The result has no whitespace left outside quotes. */
  lemma {:induction false} StripNoUnquotedSpace(s: seq<char>, quoted: bool)
    ensures NoUnquotedSpace(Strip(s, quoted), quoted)
  {
    if s != [] {
      var q' := if s[0] == '"' then !quoted else quoted;
      StripNoUnquotedSpace(s[1..], q');
      if !(!quoted && CharIsSpace(s[0])) {
        NoUnquotedSpaceCons(s[0], Strip(s[1..], q'), quoted);
      }
    }
  }

  /** A text without whitespace outside quotes is left as it is. */
  lemma {:induction false} StripUnchanged(s: seq<char>, quoted: bool)
    requires NoUnquotedSpace(s, quoted)
    ensures Strip(s, quoted) == s
  {
    if s != [] {
      var q' := if s[0] == '"' then !quoted else quoted;
      assert QuotedAfter(s[..0], quoted) == quoted;
      forall k | 0 <= k < |s[1..]| && CharIsSpace(s[1..][k])
        ensures QuotedAfter(s[1..][..k], q')
      {
        assert s[..k + 1] == [s[0]] + s[1..][..k];
        assert Quotes(s[..k + 1]) == (if s[0] == '"' then 1 else 0) + Quotes(s[1..][..k]);
        assert CharIsSpace(s[k + 1]);
      }
      StripUnchanged(s[1..], q');
    }
  }

  /** Stripping twice is stripping once. */
  lemma {:induction false} StripIdempotent(s: seq<char>, quoted: bool)
    ensures Strip(Strip(s, quoted), quoted) == Strip(s, quoted)
  {
    StripNoUnquotedSpace(s, quoted);
    StripUnchanged(Strip(s, quoted), quoted);
  }

  /** Only whitespace is removed: the other characters survive, in order. */
  lemma {:induction false} StripKeepsNonSpace(s: seq<char>, quoted: bool)
    ensures Unspaced(Strip(s, quoted)) == Unspaced(s)
  {
    if s != [] {
      var q' := if s[0] == '"' then !quoted else quoted;
      StripKeepsNonSpace(s[1..], q');
      if !quoted && CharIsSpace(s[0]) {
      } else {
        assert ([s[0]] + Strip(s[1..], q'))[1..] == Strip(s[1..], q');
      }
    }
  }

  /** Strip of the suffix of `t` from index `i`, indexed rather than sliced: the
      form the scan's loop invariant speaks of. */
  function StripFrom(t: seq<char>, i: nat, quoted: bool): (r: seq<char>)
    requires i <= |t|
    decreases |t| - i
  {
    if i == |t| then []
    else if !quoted && CharIsSpace(t[i]) then StripFrom(t, i + 1, quoted)
    else if t[i] == '"' then [t[i]] + StripFrom(t, i + 1, !quoted)
    else [t[i]] + StripFrom(t, i + 1, quoted)
  }

  lemma {:induction false} StripFromSuffix(t: seq<char>, i: nat, quoted: bool)
    requires i <= |t|
    ensures StripFrom(t, i, quoted) == Strip(t[i..], quoted)
    decreases |t| - i
  {
    if i < |t| {
      assert t[i..][1..] == t[i + 1..];
      StripFromSuffix(t, i + 1, if t[i] == '"' then !quoted else quoted);
      StripFromSuffix(t, i + 1, quoted);
    }
  }

  /** A character the scan copies is the next one to write. */
  lemma CopyStep(t: seq<char>, i: nat, quoted: bool, r: seq<char>, j: nat)
    requires i < |t| && !(!quoted && CharIsSpace(t[i]))
    requires j <= |r| && StripFrom(t, i, quoted) == r[j..]
    ensures j < |r| && r[j] == t[i]
    ensures StripFrom(t, i + 1, if t[i] == '"' then !quoted else quoted) == r[j + 1..]
  {
    assert r[j..][1..] == r[j + 1..];
  }

  /** The scan has reached the terminator: all of the text was read and all of
      its stripped form written. */
  lemma AtTerminator(t: seq<char>, i: nat, quoted: bool, r: seq<char>, j: nat)
    requires i <= |t| && '\0' !in t && (i < |t| ==> t[i] == '\0')
    requires j <= |r| && StripFrom(t, i, quoted) == r[j..]
    ensures i == |t| && j == |r|
  {
  }

  /** A buffer holding `r` followed by a NUL holds the C string `r`. */
  lemma TerminatedAt(b: seq<char>, r: seq<char>)
    requires |r| < |b| && b[|r|] == '\0' && '\0' !in r
    requires forall k :: 0 <= k < |r| ==> b[k] == r[k]
    ensures b[..|r|] == r && '\0' in b && CString(b) == r
  {
    assert b[..|r|] == r;
    StrLenAt(b, |r|);
  }

  /** The inner loop of remove_spaces_unquoted: outside quotes, moves the read
      index past whitespace. The buffer holds the text `t` from `src` on, then
      its terminator; the scan stops at the terminator at the latest, and what
      it passes over contributes nothing to the stripped text. */
  method SkipSpaces(a: array<char>, src: nat, inString: bool, ghost t: seq<char>) returns (next: nat)
    requires src <= |t| < a.Length && a[|t|] == '\0'
    requires forall k :: src <= k < |t| ==> a[k] == t[k]
    ensures src <= next <= |t|
    ensures inString ==> next == src
    ensures !inString ==> !CharIsSpace(a[next])
    ensures forall k :: src <= k < next ==> CharIsSpace(t[k])
    ensures StripFrom(t, src, inString) == StripFrom(t, next, inString)
  {
    next := src;
    while !inString && CharIsSpace(a[next])
      invariant src <= next <= |t|
      invariant inString ==> next == src
      invariant forall k :: src <= k < next ==> CharIsSpace(t[k])
      invariant StripFrom(t, src, inString) == StripFrom(t, next, inString)
      decreases |t| - next
    {
      assert next < |t| && t[next] == a[next];
      next := next + 1;
    }
  }

  /** The C string `t` held by a terminated buffer and its stripped form `r`,
      described only by the facts the scan's invariant uses; ContentsAre
      identifies them with CString and Strip once the scan is done. */
  lemma Contents(s: seq<char>) returns (t: seq<char>, r: seq<char>)
    requires '\0' in s
    ensures |t| < |s| && s[|t|] == '\0' && '\0' !in t
    ensures forall k :: 0 <= k < |t| ==> s[k] == t[k]
    ensures StripFrom(t, 0, false) == r
  {
    t := CString(s);
    r := Strip(t, false);
    StripFromSuffix(t, 0, false);
    assert t[0..] == t;
  }

  /** Those facts determine the C string and its stripped form. */
  lemma ContentsAre(s: seq<char>, t: seq<char>, r: seq<char>)
    requires |t| < |s| && s[|t|] == '\0' && '\0' !in t
    requires forall k :: 0 <= k < |t| ==> s[k] == t[k]
    requires StripFrom(t, 0, false) == r
    ensures '\0' in s && t == CString(s) && r == Strip(t, false)
  {
    assert s[..|t|] == t;
    StrLenAt(s, |t|);
    StripFromSuffix(t, 0, false);
    assert t[0..] == t;
  }

  /** remove_spaces_unquoted on the buffer `a`: the C string it holds afterwards
      is the stripped C string it held before, no longer than it, followed by
      its terminator. The write index never passes the read index, so every
      character is read before it is overwritten; the bytes after the new
      terminator keep their old values. */
  method RemoveSpacesUnquoted(a: array<char>)
    requires '\0' in a[..]
    modifies a
    ensures var r := Strip(CString(old(a[..])), false);
      && |r| <= StrLen(old(a[..])) < a.Length
      && a[..|r|] == r
      && a[|r|] == '\0'
      && (forall k :: |r| < k < a.Length ==> a[k] == old(a[k]))
      && '\0' in a[..] && CString(a[..]) == r
  {
    ghost var s := a[..];
    ghost var t, r := Contents(s);
    var inString := false;
    var src, dst := 0, 0;
    while true
      invariant 0 <= dst <= src <= |t|
      invariant dst <= |r|
      invariant forall k :: 0 <= k < dst ==> a[k] == r[k]
      invariant forall k :: dst <= k < a.Length ==> a[k] == old(a[k])
      invariant StripFrom(t, src, inString) == r[dst..]
      decreases |t| - src
    {
      src := SkipSpaces(a, src, inString, t);
      var c := a[src];
      if c == '\0' {
        AtTerminator(t, src, inString, r, dst);
        a[dst] := c;
        break;
      }
      assert src < |t| && t[src] == c;
      CopyStep(t, src, inString, r, dst);
      if c == '"' {
        inString := !inString;
      }
      a[dst] := c;
      dst, src := dst + 1, src + 1;
    }
    ContentsAre(s, t, r);
    StripAbsent(t, false, '\0');
    TerminatedAt(a[..], r);
  }
}
