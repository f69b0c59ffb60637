/** The outcome of each production of the recogniser, as a function of the
    whitespace-stripped text and the cursor position it starts from. The text
    `s` holds no NUL; position |s| is its terminator, where `next()` reads '\0'.
    Every production reports success and the position where it left the
    cursor: a failed production may already have moved it. */
module Grammar {
  import opened Utils

  datatype Outcome = Outcome(ok: bool, pos: nat)

  /** What `next()` reads at position `i`: the character there, or the terminator. */
  function At(s: seq<char>, i: nat): (c: char)
    requires i <= |s|
  {
    if i < |s| then s[i] else '\0'
  }

  /** next() reads the buffer at the cursor: the text followed by its terminator. */
  lemma AtBuffer(s: seq<char>, i: nat)
    requires i <= |s|
    ensures At(s, i) == (s + ['\0'])[i]
  {
  }

  /** In a text without NUL, '\0' is read exactly at the terminator. */
  lemma AtEnd(s: seq<char>, i: nat)
    requires '\0' !in s && i <= |s|
    ensures At(s, i) == '\0' <==> i == |s|
  {
    if i < |s| {
      assert s[i] in s;
    }
  }

  /** expect(c): moves past `c` when it is next; at the terminator it matches
      '\0' without moving, since consume refuses to pass the end. */
  function ExpectAt(s: seq<char>, i: nat, c: char): (r: Outcome)
    requires i <= |s|
    ensures i <= r.pos <= |s|
  {
    if At(s, i) == c then Outcome(true, if i < |s| then i + 1 else i)
    else Outcome(false, i)
  }

  /** parse_number, and parse_string which calls it: a single digit. */
  function NumberAt(s: seq<char>, i: nat): (r: Outcome)
    requires i <= |s|
    ensures i <= r.pos <= |s|
  {
    if IsDigit(At(s, i)) then Outcome(true, i + 1) else Outcome(false, i)
  }

  /** parse_value: `null`, `true`, `false`, or the one-digit number (the string
      production is the same stub, so trying it after the number changes nothing). */
  function ValueAt(s: seq<char>, i: nat): (r: Outcome)
    requires i <= |s|
    ensures i <= r.pos <= |s|
    ensures !r.ok ==> r.pos == i
    ensures At(s, i) == '[' || At(s, i) == '{' ==> !r.ok
  {
    if "null" <= s[i..] then Outcome(true, i + 4)
    else if "true" <= s[i..] then Outcome(true, i + 4)
    else if "false" <= s[i..] then Outcome(true, i + 5)
    else NumberAt(s, i)
  }

  /** parse_pair: a one-digit key, ':' and a value. */
  function PairAt(s: seq<char>, i: nat): (r: Outcome)
    requires i <= |s|
    ensures i <= r.pos <= |s|
    ensures r.ok ==> i + 3 <= r.pos
  {
    var key := NumberAt(s, i);
    if !key.ok then key
    else
      var colon := ExpectAt(s, key.pos, ':');
      if !colon.ok then colon
      else ValueAt(s, colon.pos)
  }

  /** The loop of parse_object: while a ',' is next, consume it and require a pair. */
  function MorePairs(s: seq<char>, i: nat): (r: Outcome)
    requires i <= |s|
    ensures i <= r.pos <= |s|
    ensures r.ok ==> At(s, r.pos) != ','
    decreases |s| - i
  {
    if At(s, i) != ',' then Outcome(true, i)
    else
      var pair := PairAt(s, i + 1);
      if !pair.ok then pair else MorePairs(s, pair.pos)
  }

  /** parse_object: '{', one pair whose outcome is ignored, the loop, and '}'. */
  function ObjectAt(s: seq<char>, i: nat): (r: Outcome)
    requires i <= |s|
    ensures i <= r.pos <= |s|
  {
    var open := ExpectAt(s, i, '{');
    if !open.ok then open
    else
      var first := PairAt(s, open.pos);
      var pairs := MorePairs(s, first.pos);
      if !pairs.ok then pairs
      else ExpectAt(s, pairs.pos, '}')
  }

  /** The loop of parse_array: while a ',' is next, consume it and require a value. */
  function MoreValues(s: seq<char>, i: nat): (r: Outcome)
    requires i <= |s|
    ensures i <= r.pos <= |s|
    ensures r.ok ==> At(s, r.pos) != ','
    decreases |s| - i
  {
    if At(s, i) != ',' then Outcome(true, i)
    else
      var value := ValueAt(s, i + 1);
      if !value.ok then value else MoreValues(s, value.pos)
  }

  /** parse_array: '[', a required value, the loop, and ']'. */
  function ArrayAt(s: seq<char>, i: nat): (r: Outcome)
    requires i <= |s|
    ensures i <= r.pos <= |s|
  {
    var open := ExpectAt(s, i, '[');
    if !open.ok then open
    else
      var first := ValueAt(s, open.pos);
      if !first.ok then first
      else
        var values := MoreValues(s, first.pos);
        if !values.ok then values
        else ExpectAt(s, values.pos, ']')
  }

  // Each production in terms of its parts -----------------------------------

  /** A successful round of an object's loop: a comma and a pair, then the rest. */
  lemma MorePairsStep(s: seq<char>, i: nat, j: nat, k: nat)
    requires i < |s| && s[i] == ',' && PairAt(s, i + 1) == Outcome(true, j)
    requires j <= |s| && MorePairs(s, j) == Outcome(true, k)
    ensures MorePairs(s, i) == Outcome(true, k)
  {
  }

  /** A successful round of an array's loop: a comma and a value, then the rest. */
  lemma MoreValuesStep(s: seq<char>, i: nat, j: nat, k: nat)
    requires i < |s| && s[i] == ',' && ValueAt(s, i + 1) == Outcome(true, j)
    requires j <= |s| && MoreValues(s, j) == Outcome(true, k)
    ensures MoreValues(s, i) == Outcome(true, k)
  {
  }

  /** The loop of an object, when it goes round and succeeds, does so through a pair. */
  lemma MorePairsParts(s: seq<char>, i: nat)
    requires i <= |s| && MorePairs(s, i).ok && At(s, i) == ','
    ensures i < |s| && s[i] == ',' && PairAt(s, i + 1).ok
    ensures MorePairs(s, i) == MorePairs(s, PairAt(s, i + 1).pos)
  {
  }

  /** The loop of an array, when it goes round and succeeds, does so through a value. */
  lemma MoreValuesParts(s: seq<char>, i: nat)
    requires i <= |s| && MoreValues(s, i).ok && At(s, i) == ','
    ensures i < |s| && s[i] == ',' && ValueAt(s, i + 1).ok
    ensures MoreValues(s, i) == MoreValues(s, ValueAt(s, i + 1).pos)
  {
  }

  /** An object assembled from '{', the first pair's outcome, the loop and '}'. */
  lemma ObjectAtJoin(s: seq<char>, i: nat, j: nat, k: nat)
    requires i < |s| && s[i] == '{' && PairAt(s, i + 1).pos == j
    requires j <= |s| && MorePairs(s, j) == Outcome(true, k)
    requires k < |s| && s[k] == '}'
    ensures ObjectAt(s, i) == Outcome(true, k + 1)
  {
  }

  /** A recognised object taken apart: '{', the first pair, the loop and '}'. */
  lemma ObjectAtParts(s: seq<char>, i: nat)
    requires i <= |s| && ObjectAt(s, i).ok
    ensures i < |s| && s[i] == '{'
    ensures var m := MorePairs(s, PairAt(s, i + 1).pos);
      m.ok && m.pos < |s| && s[m.pos] == '}' && ObjectAt(s, i).pos == m.pos + 1
  {
  }

  /** An array assembled from '[', the first value, the loop and ']'. */
  lemma ArrayAtJoin(s: seq<char>, i: nat, j: nat, k: nat)
    requires i < |s| && s[i] == '[' && ValueAt(s, i + 1) == Outcome(true, j)
    requires j <= |s| && MoreValues(s, j) == Outcome(true, k)
    requires k < |s| && s[k] == ']'
    ensures ArrayAt(s, i) == Outcome(true, k + 1)
  {
  }

  /** A recognised array taken apart: '[', the first value, the loop and ']'. */
  lemma ArrayAtParts(s: seq<char>, i: nat)
    requires i <= |s| && ArrayAt(s, i).ok
    ensures i < |s| && s[i] == '[' && ValueAt(s, i + 1).ok
    ensures var m := MoreValues(s, ValueAt(s, i + 1).pos);
      m.ok && m.pos < |s| && s[m.pos] == ']' && ArrayAt(s, i).pos == m.pos + 1
  {
  }

  /** json_parse after stripping: an object from position 0, then the
      terminator. On a text without NUL this is an object that ends exactly
      where the text does, so trailing data is refused. */
  predicate Accepts(s: seq<char>): (r: bool)
    ensures '\0' !in s ==> (r <==> ObjectAt(s, 0).ok && ObjectAt(s, 0).pos == |s|)
  {
    var obj := ObjectAt(s, 0);
    obj.ok && ExpectAt(s, obj.pos, '\0').ok
  }
}
