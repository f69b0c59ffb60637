/** A declarative description of the texts the recogniser accepts, written
    independently of the cursor, and the lemmas that tie each production's
    outcome to it in both directions. */
module Language {
  import opened Utils
  import opened Grammar

  /** The values the recogniser knows: the three literals and a single digit,
      which is all that the number and string stubs accept. */
  predicate IsValue(t: seq<char>)
  {
    t == "null" || t == "true" || t == "false" || (|t| == 1 && IsDigit(t[0]))
  }

  /** A pair: a one-digit key, ':' and a value. */
  predicate IsPair(t: seq<char>)
  {
    |t| >= 2 && IsDigit(t[0]) && t[1] == ':' && IsValue(t[2..])
  }

  /** What the unchecked first parse_pair of an object may consume: a whole
      pair, or the part of one read before it failed (nothing, the key, or the
      key and the colon). */
  predicate IsFirstPair(t: seq<char>)
  {
    || IsPair(t)
    || t == []
    || (|t| == 1 && IsDigit(t[0]))
    || (|t| == 2 && IsDigit(t[0]) && t[1] == ':')
  }

  /** The items, each preceded by a comma. */
  function Separated(items: seq<seq<char>>): seq<char>
  {
    if items == [] then [] else [','] + items[0] + Separated(items[1..])
  }

  predicate AllPairs(items: seq<seq<char>>)
  {
    forall k :: 0 <= k < |items| ==> IsPair(items[k])
  }

  predicate AllValues(items: seq<seq<char>>)
  {
    forall k :: 0 <= k < |items| ==> IsValue(items[k])
  }

  function ObjectText(first: seq<char>, pairs: seq<seq<char>>): seq<char>
  {
    ['{'] + first + Separated(pairs) + ['}']
  }

  function ArrayText(first: seq<char>, values: seq<seq<char>>): seq<char>
  {
    ['['] + first + Separated(values) + [']']
  }

  /** The objects parse_object accepts: '{', a first pair or a prefix of one,
      any number of comma-separated pairs, and '}'. */
  ghost predicate IsObject(t: seq<char>)
  {
    exists first, pairs :: IsFirstPair(first) && AllPairs(pairs) && t == ObjectText(first, pairs)
  }

  /** The arrays parse_array accepts: '[', at least one value, comma-separated, and ']'. */
  ghost predicate IsArray(t: seq<char>)
  {
    exists first, values :: IsValue(first) && AllValues(values) && t == ArrayText(first, values)
  }

  // Characters and digits ---------------------------------------------------

  /** expect(c) succeeds consuming `k` characters exactly when `c` is the next
      character and it moves past it, or `c` is '\0' and the cursor rests on the
      terminator without moving. */
  lemma ExpectAtIff(s: seq<char>, i: nat, c: char, k: nat)
    requires i + k <= |s|
    ensures ExpectAt(s, i, c) == Outcome(true, i + k) <==>
            (k == 1 && s[i] == c) || (k == 0 && i == |s| && c == '\0')
  {
  }

  /** parse_number succeeds consuming `k` characters exactly when those are one
      decimal digit. */
  lemma NumberAtIff(s: seq<char>, i: nat, k: nat)
    requires i + k <= |s|
    ensures NumberAt(s, i) == Outcome(true, i + k) <==> k == 1 && s[i] in "0123456789"
  {
    if i < |s| {
      IsDigitDecimal(s[i]);
    }
  }

  // Values ------------------------------------------------------------------

  /** A value written at `i` is recognised, and exactly it is consumed. */
  lemma {:induction false} ValueAtValue(s: seq<char>, i: nat, v: seq<char>)
    requires i <= |s| && IsValue(v) && v <= s[i..]
    ensures ValueAt(s, i) == Outcome(true, i + |v|)
  {
    var rest := s[i..];
    assert rest[0] == v[0];
    if |v| == 1 {
      assert !("null" <= rest) && !("true" <= rest) && !("false" <= rest);
    }
  }

  /** What parse_value consumes on success is a value. */
  lemma {:induction false} ValueAtIsValue(s: seq<char>, i: nat)
    requires i <= |s| && ValueAt(s, i).ok
    ensures IsValue(s[i..ValueAt(s, i).pos])
  {
    var rest, t := s[i..], s[i..ValueAt(s, i).pos];
    if "null" <= rest {
      assert t == rest[..4];
    } else if "true" <= rest {
      assert t == rest[..4];
    } else if "false" <= rest {
      assert t == rest[..5];
    }
  }

  /** parse_value succeeds consuming `k` characters exactly when those characters
      are a value; it never accepts an array or an object. */
  lemma {:induction false} ValueAtIff(s: seq<char>, i: nat, k: nat)
    requires i + k <= |s|
    ensures ValueAt(s, i) == Outcome(true, i + k) <==> IsValue(s[i..i + k])
  {
    if ValueAt(s, i) == Outcome(true, i + k) {
      ValueAtIsValue(s, i);
    }
    if IsValue(s[i..i + k]) {
      ValueAtValue(s, i, s[i..i + k]);
    }
  }

  // Pairs -------------------------------------------------------------------

  /** A pair written at `i` is recognised, and exactly it is consumed. */
  lemma {:induction false} PairAtPair(s: seq<char>, i: nat, p: seq<char>)
    requires i <= |s| && IsPair(p) && p <= s[i..]
    ensures PairAt(s, i) == Outcome(true, i + |p|)
  {
    assert s[i] == p[0] && s[i + 1] == p[1];
    assert p[2..] <= s[i + 2..];
    ValueAtValue(s, i + 2, p[2..]);
  }

  /** What parse_pair consumes on success is a pair. */
  lemma {:induction false} PairAtIsPair(s: seq<char>, i: nat)
    requires i <= |s| && PairAt(s, i).ok
    ensures IsPair(s[i..PairAt(s, i).pos])
  {
    var t := s[i..PairAt(s, i).pos];
    ValueAtIsValue(s, i + 2);
    assert t[2..] == s[i + 2..PairAt(s, i).pos];
  }

  /** Whatever its outcome, parse_pair consumes a pair or a prefix of one. */
  lemma {:induction false} PairAtIsFirstPair(s: seq<char>, i: nat)
    requires i <= |s|
    ensures IsFirstPair(s[i..PairAt(s, i).pos])
  {
    if PairAt(s, i).ok {
      PairAtIsPair(s, i);
    }
  }

  /** A first pair (or prefix of one) written at `i` and followed by ',' or '}'
      is consumed exactly. */
  lemma {:induction false} PairAtFirstPair(s: seq<char>, i: nat, f: seq<char>)
    requires i + |f| <= |s| && IsFirstPair(f) && f <= s[i..]
    requires At(s, i + |f|) == ',' || At(s, i + |f|) == '}'
    ensures PairAt(s, i).pos == i + |f|
  {
    if IsPair(f) {
      PairAtPair(s, i, f);
    } else if |f| == 1 {
      assert s[i] == f[0];
    } else if |f| == 2 {
      assert s[i] == f[0] && s[i + 1] == f[1];
    }
  }

  // Separated lists ---------------------------------------------------------

  lemma SliceSplit(s: seq<char>, a: nat, b: nat, c: nat)
    requires a <= b <= c <= |s|
    ensures s[a..c] == s[a..b] + s[b..c]
  {
  }

  /** A bracketed text at `i`: the opening character, two pieces, the closing one. */
  lemma Enclosed(s: seq<char>, i: nat, a: nat, b: nat, open: char, close: char)
    requires i < a <= b < |s| && s[i] == open && s[b] == close
    ensures s[i..b + 1] == [open] + s[i + 1..a] + s[a..b] + [close]
  {
    SliceSplit(s, i, i + 1, b + 1);
    SliceSplit(s, i + 1, a, b + 1);
    SliceSplit(s, a, b, b + 1);
    assert s[i..i + 1] == [open] && s[b..b + 1] == [close];
  }

  /** An object found between `i` and `b`, its first part ending at `a`. */
  lemma ObjectBetween(s: seq<char>, i: nat, a: nat, b: nat, pairs: seq<seq<char>>)
    requires i < a <= b < |s| && s[i] == '{' && s[b] == '}'
    requires IsFirstPair(s[i + 1..a]) && AllPairs(pairs) && s[a..b] == Separated(pairs)
    ensures IsObject(s[i..b + 1])
  {
    Enclosed(s, i, a, b, '{', '}');
    assert s[i..b + 1] == ObjectText(s[i + 1..a], pairs);
  }

  /** An array found between `i` and `b`, its first value ending at `a`. */
  lemma ArrayBetween(s: seq<char>, i: nat, a: nat, b: nat, values: seq<seq<char>>)
    requires i < a <= b < |s| && s[i] == '[' && s[b] == ']'
    requires IsValue(s[i + 1..a]) && AllValues(values) && s[a..b] == Separated(values)
    ensures IsArray(s[i..b + 1])
  {
    Enclosed(s, i, a, b, '[', ']');
    assert s[i..b + 1] == ArrayText(s[i + 1..a], values);
  }

  /** The pieces of a bracketed text found at `i`. */
  lemma Unpack(s: seq<char>, i: nat, open: char, first: seq<char>, sep: seq<char>, close: char)
    requires i <= |s| && [open] + first + sep + [close] <= s[i..]
    ensures i + 1 + |first| + |sep| < |s|
    ensures s[i] == open && first <= s[i + 1..] && sep <= s[i + 1 + |first|..]
    ensures s[i + 1 + |first| + |sep|] == close
  {
    var t := [open] + first + sep + [close];
    var j := i + 1 + |first|;
    assert t[0] == open && s[i] == t[0];
    assert t[|t| - 1] == close && s[j + |sep|] == t[|t| - 1];
    forall k | 0 <= k < |first|
      ensures first[k] == s[i + 1 + k]
    {
      assert t[1 + k] == first[k];
    }
    forall k | 0 <= k < |sep|
      ensures sep[k] == s[j + k]
    {
      assert t[1 + |first| + k] == sep[k];
    }
  }

  lemma SeparatedOne(item: seq<char>, rest: seq<seq<char>>)
    ensures Separated([item] + rest) == [','] + item + Separated(rest)
  {
    assert ([item] + rest)[0] == item && ([item] + rest)[1..] == rest;
  }

  lemma AllPairsCons(item: seq<char>, rest: seq<seq<char>>)
    requires IsPair(item) && AllPairs(rest)
    ensures AllPairs([item] + rest)
  {
    forall k | 0 <= k < |[item] + rest|
      ensures IsPair(([item] + rest)[k])
    {
      if k > 0 {
        assert ([item] + rest)[k] == rest[k - 1];
      }
    }
  }

  lemma AllValuesCons(item: seq<char>, rest: seq<seq<char>>)
    requires IsValue(item) && AllValues(rest)
    ensures AllValues([item] + rest)
  {
    forall k | 0 <= k < |[item] + rest|
      ensures IsValue(([item] + rest)[k])
    {
      if k > 0 {
        assert ([item] + rest)[k] == rest[k - 1];
      }
    }
  }

  /** A comma at `i`, an item up to `a` and more up to `b`. */
  lemma Comma(s: seq<char>, i: nat, a: nat, b: nat)
    requires i < a <= b <= |s| && s[i] == ','
    ensures s[i..b] == [','] + s[i + 1..a] + s[a..b]
  {
    SliceSplit(s, i, i + 1, b);
    SliceSplit(s, i + 1, a, b);
    assert s[i..i + 1] == [','];
  }

  lemma {:induction false} SeparatedCons(items: seq<seq<char>>, s: seq<char>, i: nat)
    requires items != [] && i <= |s| && Separated(items) <= s[i..]
    ensures i < |s| && s[i] == ','
    ensures items[0] <= s[i + 1..]
    ensures Separated(items[1..]) <= s[i + 1 + |items[0]|..]
    ensures |Separated(items)| == 1 + |items[0]| + |Separated(items[1..])|
  {
    var sep := Separated(items);
    assert sep == [','] + items[0] + Separated(items[1..]);
    assert sep[0] == ',';
    assert sep[1..1 + |items[0]|] == items[0];
    assert sep[1 + |items[0]|..] == Separated(items[1..]);
  }

  /** The loop of parse_object consumes exactly a run of comma-separated pairs
      that is not followed by another comma. */
  lemma {:induction false} MorePairsAt(s: seq<char>, i: nat, pairs: seq<seq<char>>)
    requires i + |Separated(pairs)| <= |s| && Separated(pairs) <= s[i..]
    requires AllPairs(pairs) && At(s, i + |Separated(pairs)|) != ','
    ensures MorePairs(s, i) == Outcome(true, i + |Separated(pairs)|)
    decreases |pairs|
  {
    if pairs != [] {
      var j := i + 1 + |pairs[0]|;
      SeparatedCons(pairs, s, i);
      PairAtPair(s, i + 1, pairs[0]);
      MorePairsAt(s, j, pairs[1..]);
      MorePairsStep(s, i, j, j + |Separated(pairs[1..])|);
    }
  }


  /** What the loop of parse_object consumes on success is a run of
      comma-separated pairs. */
  lemma {:induction false} MorePairsSplit(s: seq<char>, i: nat) returns (pairs: seq<seq<char>>)
    requires i <= |s| && MorePairs(s, i).ok
    ensures AllPairs(pairs) && s[i..MorePairs(s, i).pos] == Separated(pairs)
    decreases |s| - i
  {
    if At(s, i) != ',' {
      pairs := [];
    } else {
      MorePairsParts(s, i);
      var p := PairAt(s, i + 1);
      PairAtIsPair(s, i + 1);
      var rest := MorePairsSplit(s, p.pos);
      pairs := [s[i + 1..p.pos]] + rest;
      AllPairsCons(s[i + 1..p.pos], rest);
      SeparatedOne(s[i + 1..p.pos], rest);
      Comma(s, i, p.pos, MorePairs(s, i).pos);
    }
  }


  /** The loop of parse_array consumes exactly a run of comma-separated values
      that is not followed by another comma. */
  lemma {:induction false} MoreValuesAt(s: seq<char>, i: nat, values: seq<seq<char>>)
    requires i + |Separated(values)| <= |s| && Separated(values) <= s[i..]
    requires AllValues(values) && At(s, i + |Separated(values)|) != ','
    ensures MoreValues(s, i) == Outcome(true, i + |Separated(values)|)
    decreases |values|
  {
    if values != [] {
      var j := i + 1 + |values[0]|;
      SeparatedCons(values, s, i);
      ValueAtValue(s, i + 1, values[0]);
      MoreValuesAt(s, j, values[1..]);
      MoreValuesStep(s, i, j, j + |Separated(values[1..])|);
    }
  }


  /** What the loop of parse_array consumes on success is a run of
      comma-separated values. */
  lemma {:induction false} MoreValuesSplit(s: seq<char>, i: nat) returns (values: seq<seq<char>>)
    requires i <= |s| && MoreValues(s, i).ok
    ensures AllValues(values) && s[i..MoreValues(s, i).pos] == Separated(values)
    decreases |s| - i
  {
    if At(s, i) != ',' {
      values := [];
    } else {
      MoreValuesParts(s, i);
      var v := ValueAt(s, i + 1);
      ValueAtIsValue(s, i + 1);
      var rest := MoreValuesSplit(s, v.pos);
      values := [s[i + 1..v.pos]] + rest;
      AllValuesCons(s[i + 1..v.pos], rest);
      SeparatedOne(s[i + 1..v.pos], rest);
      Comma(s, i, v.pos, MoreValues(s, i).pos);
    }
  }


  // Objects and arrays ------------------------------------------------------

  /** An object written at `i` is recognised, and exactly it is consumed. */
  lemma {:induction false} ObjectAtObject(s: seq<char>, i: nat, first: seq<char>, pairs: seq<seq<char>>)
    requires IsFirstPair(first) && AllPairs(pairs)
    requires i + |ObjectText(first, pairs)| <= |s| && ObjectText(first, pairs) <= s[i..]
    ensures ObjectAt(s, i) == Outcome(true, i + |ObjectText(first, pairs)|)
  {
    Unpack(s, i, '{', first, Separated(pairs), '}');
    ObjectAtPieces(s, i, first, pairs);
  }

  /** The same, with the object given piece by piece. */
  lemma {:induction false} ObjectAtPieces(s: seq<char>, i: nat, first: seq<char>, pairs: seq<seq<char>>)
    requires IsFirstPair(first) && AllPairs(pairs)
    requires i + 1 + |first| + |Separated(pairs)| < |s| && s[i] == '{'
    requires first <= s[i + 1..] && Separated(pairs) <= s[i + 1 + |first|..]
    requires s[i + 1 + |first| + |Separated(pairs)|] == '}'
    ensures ObjectAt(s, i) == Outcome(true, i + 2 + |first| + |Separated(pairs)|)
  {
    var j := i + 1 + |first|;
    var k := j + |Separated(pairs)|;
    if pairs != [] {
      SeparatedCons(pairs, s, j);
    }
    PairAtFirstPair(s, i + 1, first);
    MorePairsAt(s, j, pairs);
    ObjectAtJoin(s, i, j, k);
  }

  /** What parse_object consumes on success is an object. */
  lemma {:induction false} ObjectAtIsObject(s: seq<char>, i: nat)
    requires i <= |s| && ObjectAt(s, i).ok
    ensures IsObject(s[i..ObjectAt(s, i).pos])
  {
    ObjectAtParts(s, i);
    var f := PairAt(s, i + 1);
    PairAtIsFirstPair(s, i + 1);
    var m := MorePairs(s, f.pos);
    var pairs := MorePairsSplit(s, f.pos);
    ObjectBetween(s, i, f.pos, m.pos, pairs);
  }



  /** An array written at `i` is recognised, and exactly it is consumed. */
  lemma {:induction false} ArrayAtArray(s: seq<char>, i: nat, first: seq<char>, values: seq<seq<char>>)
    requires IsValue(first) && AllValues(values)
    requires i + |ArrayText(first, values)| <= |s| && ArrayText(first, values) <= s[i..]
    ensures ArrayAt(s, i) == Outcome(true, i + |ArrayText(first, values)|)
  {
    var sep := Separated(values);
    var j := i + 1 + |first|;
    Unpack(s, i, '[', first, sep, ']');
    ValueAtValue(s, i + 1, first);
    MoreValuesAt(s, j, values);
    assert |ArrayText(first, values)| == |first| + |sep| + 2;
    assert ValueAt(s, i + 1) == Outcome(true, j);
    assert MoreValues(s, j) == Outcome(true, j + |sep|);
    ArrayAtJoin(s, i, j, j + |sep|);
  }


  /** What parse_array consumes on success is an array. */
  lemma {:induction false} ArrayAtIsArray(s: seq<char>, i: nat)
    requires i <= |s| && ArrayAt(s, i).ok
    ensures IsArray(s[i..ArrayAt(s, i).pos])
  {
    ArrayAtParts(s, i);
    var f := ValueAt(s, i + 1);
    ValueAtIsValue(s, i + 1);
    var m := MoreValues(s, f.pos);
    var values := MoreValuesSplit(s, f.pos);
    ArrayBetween(s, i, f.pos, m.pos, values);
  }



  /** parse_array accepts a prefix of `s[i..]` exactly when that prefix is an array. */
  lemma {:induction false} ArrayAtIff(s: seq<char>, i: nat, k: nat)
    requires i + k <= |s|
    ensures ArrayAt(s, i) == Outcome(true, i + k) <==> IsArray(s[i..i + k])
  {
    if ArrayAt(s, i) == Outcome(true, i + k) {
      ArrayAtIsArray(s, i);
    }
    if IsArray(s[i..i + k]) {
      var first, values :| IsValue(first) && AllValues(values) && s[i..i + k] == ArrayText(first, values);
      ArrayAtArray(s, i, first, values);
    }
  }

  /** The whole stripped text is accepted exactly when it is an object. */
  lemma {:induction false} AcceptsIff(t: seq<char>)
    requires '\0' !in t
    ensures Accepts(t) <==> IsObject(t)
  {
    if Accepts(t) {
      var o := ObjectAt(t, 0);
      AtEnd(t, o.pos);
      ObjectAtIsObject(t, 0);
      assert t[0..|t|] == t;
    }
    if IsObject(t) {
      var first, pairs :| IsFirstPair(first) && AllPairs(pairs) && t == ObjectText(first, pairs);
      ObjectAtObject(t, 0, first, pairs);
    }
  }
}
