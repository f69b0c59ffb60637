/** The inputs of the demonstration driver in rtb-json.c and the quirks of the
    recogniser, decided from the model.

    Stripping a concrete input is worked out one character at a time on the
    indexed form of Strip, from the end, in pieces of at most eight
    characters; acceptance is shown by exhibiting the stripped text as an
    object of the reference description. The inputs are passed as parameters
    fixed by a precondition so that the verifier unfolds the definitions only
    as far as each step needs. */
module Examples {
  import opened Utils
  import opened Spaces
  import opened Grammar
  import opened Language

  // The demonstration inputs ------------------------------------------------

  /** An object of two pairs is accepted. */
  lemma TwoPairsAccepted(r: seq<char>, p: seq<char>, q: seq<char>)
    requires IsPair(p) && IsPair(q) && r == ObjectText(p, [q])
    ensures Accepts(r)
  {
    assert r[0..] == r;
    assert AllPairs([q]);
    ObjectAtObject(r, 0, p, [q]);
  }

  lemma {:induction false} TwoNumbersFrom8(t: seq<char>)
    requires t == "{1 :\t2,3 :4}"
    ensures StripFrom(t, 8, false) == ":4}"
  {
    assert StripFrom(t, 12, false) == [];
    assert StripFrom(t, 11, false) == [t[11]] + StripFrom(t, 12, false);
    assert StripFrom(t, 10, false) == [t[10]] + StripFrom(t, 11, false);
    assert StripFrom(t, 9, false) == [t[9]] + StripFrom(t, 10, false);
    assert StripFrom(t, 8, false) == StripFrom(t, 9, false);
  }

  lemma {:induction false} TwoNumbersFrom0(t: seq<char>)
    requires t == "{1 :\t2,3 :4}"
    ensures StripFrom(t, 0, false) == "{1:2,3:4}"
  {
    TwoNumbersFrom8(t);
    assert StripFrom(t, 7, false) == [t[7]] + StripFrom(t, 8, false);
    assert StripFrom(t, 6, false) == [t[6]] + StripFrom(t, 7, false);
    assert StripFrom(t, 5, false) == [t[5]] + StripFrom(t, 6, false);
    assert StripFrom(t, 4, false) == StripFrom(t, 5, false);
    assert StripFrom(t, 3, false) == [t[3]] + StripFrom(t, 4, false);
    assert StripFrom(t, 2, false) == StripFrom(t, 3, false);
    assert StripFrom(t, 1, false) == [t[1]] + StripFrom(t, 2, false);
    assert StripFrom(t, 0, false) == [t[0]] + StripFrom(t, 1, false);
  }

  /** "{1 :\t2,3 :4}" strips to "{1:2,3:4}", which is accepted. */
  lemma TwoNumbersAccepted(t: seq<char>)
    requires t == "{1 :\t2,3 :4}"
    ensures Strip(t, false) == "{1:2,3:4}" && Accepts(Strip(t, false))
  {
    TwoNumbersFrom0(t);
    StripFromSuffix(t, 0, false);
    assert t[0..] == t;
    assert Strip(t, false) == ObjectText("1:2", ["3:4"]);
    TwoPairsAccepted(Strip(t, false), "1:2", "3:4");
  }

  lemma {:induction false} NumberAndNullFrom8(t: seq<char>)
    requires t == "{1 :\t2,3 :null}"
    ensures StripFrom(t, 8, false) == ":null}"
  {
    assert StripFrom(t, 15, false) == [];
    assert StripFrom(t, 14, false) == [t[14]] + StripFrom(t, 15, false);
    assert StripFrom(t, 13, false) == [t[13]] + StripFrom(t, 14, false);
    assert StripFrom(t, 12, false) == [t[12]] + StripFrom(t, 13, false);
    assert StripFrom(t, 11, false) == [t[11]] + StripFrom(t, 12, false);
    assert StripFrom(t, 10, false) == [t[10]] + StripFrom(t, 11, false);
    assert StripFrom(t, 9, false) == [t[9]] + StripFrom(t, 10, false);
    assert StripFrom(t, 8, false) == StripFrom(t, 9, false);
  }

  lemma {:induction false} NumberAndNullFrom0(t: seq<char>)
    requires t == "{1 :\t2,3 :null}"
    ensures StripFrom(t, 0, false) == "{1:2,3:null}"
  {
    NumberAndNullFrom8(t);
    assert StripFrom(t, 7, false) == [t[7]] + StripFrom(t, 8, false);
    assert StripFrom(t, 6, false) == [t[6]] + StripFrom(t, 7, false);
    assert StripFrom(t, 5, false) == [t[5]] + StripFrom(t, 6, false);
    assert StripFrom(t, 4, false) == StripFrom(t, 5, false);
    assert StripFrom(t, 3, false) == [t[3]] + StripFrom(t, 4, false);
    assert StripFrom(t, 2, false) == StripFrom(t, 3, false);
    assert StripFrom(t, 1, false) == [t[1]] + StripFrom(t, 2, false);
    assert StripFrom(t, 0, false) == [t[0]] + StripFrom(t, 1, false);
  }

  /** "{1 :\t2,3 :null}" strips to "{1:2,3:null}", which is accepted. */
  lemma NumberAndNullAccepted(t: seq<char>)
    requires t == "{1 :\t2,3 :null}"
    ensures Strip(t, false) == "{1:2,3:null}" && Accepts(Strip(t, false))
  {
    NumberAndNullFrom0(t);
    StripFromSuffix(t, 0, false);
    assert t[0..] == t;
    assert Strip(t, false) == ObjectText("1:2", ["3:null"]);
    TwoPairsAccepted(Strip(t, false), "1:2", "3:null");
  }

  lemma {:induction false} TrueAndNullFrom16(t: seq<char>)
    requires t == "{  1 :\ttrue , 3 : null  }"
    ensures StripFrom(t, 16, false) == ":null}"
  {
    assert StripFrom(t, 25, false) == [];
    assert StripFrom(t, 24, false) == [t[24]] + StripFrom(t, 25, false);
    assert StripFrom(t, 23, false) == StripFrom(t, 24, false);
    assert StripFrom(t, 22, false) == StripFrom(t, 23, false);
    assert StripFrom(t, 21, false) == [t[21]] + StripFrom(t, 22, false);
    assert StripFrom(t, 20, false) == [t[20]] + StripFrom(t, 21, false);
    assert StripFrom(t, 19, false) == [t[19]] + StripFrom(t, 20, false);
    assert StripFrom(t, 18, false) == [t[18]] + StripFrom(t, 19, false);
    assert StripFrom(t, 17, false) == StripFrom(t, 18, false);
    assert StripFrom(t, 16, false) == [t[16]] + StripFrom(t, 17, false);
  }

  lemma {:induction false} TrueAndNullFrom8(t: seq<char>)
    requires t == "{  1 :\ttrue , 3 : null  }"
    ensures StripFrom(t, 8, false) == "rue,3:null}"
  {
    TrueAndNullFrom16(t);
    assert StripFrom(t, 15, false) == StripFrom(t, 16, false);
    assert StripFrom(t, 14, false) == [t[14]] + StripFrom(t, 15, false);
    assert StripFrom(t, 13, false) == StripFrom(t, 14, false);
    assert StripFrom(t, 12, false) == [t[12]] + StripFrom(t, 13, false);
    assert StripFrom(t, 11, false) == StripFrom(t, 12, false);
    assert StripFrom(t, 10, false) == [t[10]] + StripFrom(t, 11, false);
    assert StripFrom(t, 9, false) == [t[9]] + StripFrom(t, 10, false);
    assert StripFrom(t, 8, false) == [t[8]] + StripFrom(t, 9, false);
  }

  lemma {:induction false} TrueAndNullFrom0(t: seq<char>)
    requires t == "{  1 :\ttrue , 3 : null  }"
    ensures StripFrom(t, 0, false) == "{1:true,3:null}"
  {
    TrueAndNullFrom8(t);
    assert StripFrom(t, 7, false) == [t[7]] + StripFrom(t, 8, false);
    assert StripFrom(t, 6, false) == StripFrom(t, 7, false);
    assert StripFrom(t, 5, false) == [t[5]] + StripFrom(t, 6, false);
    assert StripFrom(t, 4, false) == StripFrom(t, 5, false);
    assert StripFrom(t, 3, false) == [t[3]] + StripFrom(t, 4, false);
    assert StripFrom(t, 2, false) == StripFrom(t, 3, false);
    assert StripFrom(t, 1, false) == StripFrom(t, 2, false);
    assert StripFrom(t, 0, false) == [t[0]] + StripFrom(t, 1, false);
  }

  /** "{  1 :\ttrue , 3 : null  }" strips to "{1:true,3:null}", which is accepted. */
  lemma TrueAndNullAccepted(t: seq<char>)
    requires t == "{  1 :\ttrue , 3 : null  }"
    ensures Strip(t, false) == "{1:true,3:null}" && Accepts(Strip(t, false))
  {
    TrueAndNullFrom0(t);
    StripFromSuffix(t, 0, false);
    assert t[0..] == t;
    assert Strip(t, false) == ObjectText("1:true", ["3:null"]);
    TwoPairsAccepted(Strip(t, false), "1:true", "3:null");
  }

  /** "{}" is left alone by stripping and is the object whose first pair
      consumes nothing. */
  lemma EmptyAccepted(t: seq<char>)
    requires t == "{}"
    ensures Strip(t, false) == t && Accepts(Strip(t, false))
  {
    assert Strip(t, false) == t;
    assert t == ObjectText([], []) && t[0..] == t;
    ObjectAtObject(t, 0, [], []);
  }

  /** json_parse accepts each input of the demonstration driver. */
  lemma DemonstrationAccepted()
    ensures Accepts(Strip("{}", false))
    ensures Accepts(Strip("{1 :\t2,3 :4}", false))
    ensures Accepts(Strip("{1 :\t2,3 :null}", false))
    ensures Accepts(Strip("{  1 :\ttrue , 3 : null  }", false))
  {
    EmptyAccepted("{}");
    TwoNumbersAccepted("{1 :\t2,3 :4}");
    NumberAndNullAccepted("{1 :\t2,3 :null}");
    TrueAndNullAccepted("{  1 :\ttrue , 3 : null  }");
  }

  /** The same for the C strings main hands to json_parse: each literal, its
      terminator and whatever memory follows. By the postcondition of
      JsonParse, json_parse returns true for each of them. */
  lemma MainArgumentsAccepted(rest: seq<char>)
    ensures Accepts(Strip(CString("{}" + ['\0'] + rest), false))
    ensures Accepts(Strip(CString("{1 :\t2,3 :4}" + ['\0'] + rest), false))
    ensures Accepts(Strip(CString("{1 :\t2,3 :null}" + ['\0'] + rest), false))
    ensures Accepts(Strip(CString("{  1 :\ttrue , 3 : null  }" + ['\0'] + rest), false))
  {
    CStringOfLiteral("{}", rest);
    CStringOfLiteral("{1 :\t2,3 :4}", rest);
    CStringOfLiteral("{1 :\t2,3 :null}", rest);
    CStringOfLiteral("{  1 :\ttrue , 3 : null  }", rest);
    DemonstrationAccepted();
  }

  // Quirks of the stubs, on stripped texts ----------------------------------

  /** The result of an object's first parse_pair is ignored: a lone key, a key
      and a colon, or nothing before a comma is accepted. */
  lemma FirstPairIgnored()
    ensures Accepts("{1}") && Accepts("{1:}") && Accepts("{,1:2}")
  {
    ObjectAtObject("{,1:2}", 0, [], ["1:2"]);
  }

  /** Malformed objects are refused: no closing brace, a trailing comma, a
      number of two digits (the stub reads one). */
  lemma MalformedRejected()
    ensures !Accepts("{1:2") && !Accepts("{1:2,}") && !Accepts("{1:12}")
  {
  }

  /** Only an object is accepted at the top, as a whole: not the empty text,
      not an array, not an object followed by more, and not a quoted key,
      since the string production is the one-digit stub. */
  lemma NonObjectsRejected()
    ensures !Accepts("") && !Accepts("[1]") && !Accepts("{}}") && !Accepts("{\"a\":1}")
  {
  }

  /** parse_array requires a first value, so the empty array is refused. */
  lemma ArrayNeedsValue()
    ensures !ArrayAt("[]", 0).ok
    ensures ArrayAt("[1,null]", 0) == Outcome(true, 8)
  {
    ArrayAtArray("[1,null]", 0, "1", ["null"]);
  }
}
