/** The recogniser: a cursor over the stripped buffer (the globals input_str,
    input_len and input_i), its primitive operations, one method per
    production, and json_parse. Each method is proved against the function of
    Grammar that gives its outcome. */
module Parser {
  import opened Utils
  import opened Spaces
  import opened Grammar
  import opened Language

  class Cursor {
    /** input_str: the whole buffer, with the terminator at `len` and whatever
        the stripping left after it. */
    const buf: seq<char>
    /** input_len */
    const len: nat
    /** input_i */
    var i: int

    ghost predicate Valid()
      reads this
    {
      len < |buf| && buf[len] == '\0' && '\0' !in buf[..len] && 0 <= i <= len
    }

    /** The C string being scanned. */
    ghost function Input(): (s: seq<char>)
      reads this
      requires Valid()
      ensures |s| == len && '\0' !in s
    {
      buf[..len]
    }

    /** Sets up the globals as json_parse does: input_len = strlen(input_str), input_i = 0. */
    constructor (buffer: seq<char>)
      requires '\0' in buffer
      ensures Valid() && buf == buffer && i == 0
      ensures Input() == CString(buffer)
    {
      buf := buffer;
      len := StrLen(buffer);
      i := 0;
    }

    /** The buffer from the cursor on is a terminated C string: the rest of the input. */
    lemma RestIsCString()
      requires Valid()
      ensures '\0' in buf[i..] && CString(buf[i..]) == Input()[i..]
    {
      assert buf[i..][..len - i] == Input()[i..];
      StrLenAt(buf[i..], len - i);
    }

    /** next(): the character at the cursor; '\0' exactly at the end of input. */
    function Next(): (c: char)
      reads this
      requires Valid()
      ensures c == At(Input(), i)
      ensures c == '\0' <==> i == len
    {
      assert i < len ==> buf[i] == Input()[i];
      buf[i]
    }

    /** consume(): advances by one unless at the end, and says whether it did. */
    method Consume() returns (ok: bool)
      requires Valid()
      modifies this
      ensures Valid()
      ensures ok == (old(i) < len)
      ensures i == if ok then old(i) + 1 else old(i)
    {
      if i < len {
        i := i + 1;
        return true;
      }
      return false;
    }

    /** consume_n(n): up to `n` single steps, stopping at the end of input; succeeds
        when all `n` were possible. A count of zero or less does nothing. */
    method ConsumeN(n: int) returns (ok: bool)
      requires Valid()
      modifies this
      ensures Valid()
      ensures ok == (old(i) + n <= len)
      ensures i == if n <= 0 then old(i) else if old(i) + n <= len then old(i) + n else len
    {
      var k := n;
      while k > 0
        invariant Valid()
        invariant if n > 0 then 0 <= k <= n && i == old(i) + (n - k) else k == n && i == old(i)
        decreases k
      {
        k := k - 1;
        var stepped := Consume();
        if !stepped {
          return false;
        }
      }
      return true;
    }

    /** expect(c): true and past `c` when it is next, otherwise false and unmoved.
        At the end of input, expect('\0') is true but cannot move. */
    method Expect(c: char) returns (ok: bool)
      requires Valid()
      modifies this
      ensures Valid()
      ensures ok == (At(Input(), old(i)) == c)
      ensures i == if ok && old(i) < len then old(i) + 1 else old(i)
      ensures Outcome(ok, i) == ExpectAt(Input(), old(i), c)
    {
      if Next() == c {
        var stepped := Consume();
        return true;
      }
      return false;
    }

    /** next_null(): whether the rest of the input begins with `null`. */
    function NextNull(): (r: bool)
      reads this
      requires Valid()
      ensures r <==> "null" <= Input()[i..]
    {
      RestIsCString();
      StrPrefix(buf[i..], "null")
    }

    /** next_bool(): the length of `true` or `false` when the rest of the input
        begins with it, else 0. */
    function NextBool(): (r: int)
      reads this
      requires Valid()
      ensures "true" <= Input()[i..] ==> r == 4
      ensures !("true" <= Input()[i..]) && "false" <= Input()[i..] ==> r == 5
      ensures !("true" <= Input()[i..]) && !("false" <= Input()[i..]) ==> r == 0
    {
      RestIsCString();
      var isTrue := StrPrefixLen(buf[i..], "true");
      if isTrue != 0 then isTrue else StrPrefixLen(buf[i..], "false")
    }

    /** parse_number(): one digit. */
    method ParseNumber() returns (ok: bool)
      requires Valid()
      modifies this
      ensures Valid()
      ensures Outcome(ok, i) == NumberAt(Input(), old(i))
    {
      if IsDigit(Next()) {
        var stepped := Consume();
        return true;
      }
      return false;
    }

    /** parse_string(): the number stub again. */
    method ParseString() returns (ok: bool)
      requires Valid()
      modifies this
      ensures Valid()
      ensures Outcome(ok, i) == NumberAt(Input(), old(i))
    {
      ok := ParseNumber();
    }

    /** parse_value(): null, a boolean, a number or a string, in that order. */
    method ParseValue() returns (ok: bool)
      requires Valid()
      modifies this
      ensures Valid()
      ensures Outcome(ok, i) == ValueAt(Input(), old(i))
    {
      if NextNull() {
        var stepped := ConsumeN(|"null"|);
        return true;
      }
      var matchLen := NextBool();
      if matchLen != 0 {
        var stepped := ConsumeN(matchLen);
        return true;
      }
      ok := ParseNumber();
      if ok {
        return;
      }
      ok := ParseString();
    }

    /** parse_array(): '[' value (',' value)* ']'. */
    method ParseArray() returns (ok: bool)
      requires Valid()
      modifies this
      ensures Valid()
      ensures Outcome(ok, i) == ArrayAt(Input(), old(i))
    {
      ok := Expect('[');
      if !ok {
        return;
      }
      ok := ParseValue();
      if !ok {
        return;
      }
      ghost var start := i;
      while Next() == ','
        invariant Valid() && start <= i
        invariant MoreValues(Input(), i) == MoreValues(Input(), start)
        decreases len - i
      {
        var stepped := Consume();
        ok := ParseValue();
        if !ok {
          return;
        }
      }
      ok := Expect(']');
    }

    /** parse_pair(): a string (the digit stub), ':' and a value. */
    method ParsePair() returns (ok: bool)
      requires Valid()
      modifies this
      ensures Valid()
      ensures Outcome(ok, i) == PairAt(Input(), old(i))
    {
      ok := ParseString();
      if !ok {
        return;
      }
      ok := Expect(':');
      if !ok {
        return;
      }
      ok := ParseValue();
    }

    /** parse_object(): '{', a first pair whose result is dropped, (',' pair)*, '}'. */
    method ParseObject() returns (ok: bool)
      requires Valid()
      modifies this
      ensures Valid()
      ensures Outcome(ok, i) == ObjectAt(Input(), old(i))
    {
      ok := Expect('{');
      if !ok {
        return;
      }
      var first := ParsePair();
      ghost var start := i;
      while Next() == ','
        invariant Valid() && start <= i
        invariant MorePairs(Input(), i) == MorePairs(Input(), start)
        decreases len - i
      {
        var stepped := Consume();
        ok := ParsePair();
        if !ok {
          return;
        }
      }
      ok := Expect('}');
    }
  }

  /** json_parse(str): copies the C string, strips whitespace outside quotes in
      place, and accepts when an object is recognised from the start and the
      cursor is then at the terminator (so trailing data is refused). */
  method JsonParse(str: seq<char>) returns (ok: bool)
    requires '\0' in str
    ensures ok == Accepts(Strip(CString(str), false))
    ensures ok <==> IsObject(Strip(CString(str), false))
  {
    StripAbsent(CString(str), false, '\0');
    AcceptsIff(Strip(CString(str), false));
    var n := StrLen(str);
    var input := new char[n + 1];
    forall k | 0 <= k <= n {
      input[k] := str[k];
    }
    assert input[..] == str[..n + 1];
    StrLenAt(input[..], n);
    assert CString(input[..]) == CString(str);
    RemoveSpacesUnquoted(input);
    var cursor := new Cursor(input[..]);
    ok := cursor.ParseObject();
    if !ok {
      return;
    }
    ok := cursor.Expect('\0');
  }
}
