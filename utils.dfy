/** The string utilities of the recogniser: the JSON whitespace set, the C-locale
    digit test, and the prefix tests over NUL-terminated character buffers.
    A C string is modelled as the buffer from the pointer onwards, which holds
    a NUL somewhere; its contents are the characters before the first NUL. */
module Utils {

  /** The four whitespace characters of RFC 8259, section 2; deliberately not
      the wider set that ctype's isspace also accepts (vertical tab, form feed). */
  predicate CharIsSpace(c: char): (r: bool)
    ensures r ==> c != '"' && c != '\0'
    ensures c == '\U{000B}' || c == '\U{000C}' ==> !r
  {
    c == ' ' || c == '\t' || c == '\r' || c == '\n'
  }

  /** isdigit in the C locale. */
  predicate IsDigit(c: char): (r: bool)
  {
    '0' <= c <= '9'
  }

  /** The digits IsDigit accepts are the ten decimal digits. */
  lemma IsDigitDecimal(c: char)
    ensures IsDigit(c) <==> c in "0123456789"
  {
  }

  /** strlen: the index of the first NUL of a terminated buffer. */
  function StrLen(s: seq<char>): (n: nat)
    requires '\0' in s
    ensures n < |s| && s[n] == '\0'
    ensures '\0' !in s[..n]
  {
    if s[0] == '\0' then 0
    else
      assert '\0' in s[1..] by {
        var k :| 0 <= k < |s| && s[k] == '\0';
        assert s[1..][k - 1] == '\0';
      }
      var m := StrLen(s[1..]);
      assert s[..m + 1] == [s[0]] + s[1..][..m];
      m + 1
  }

  /** The contents of the C string held by a terminated buffer. */
  function CString(s: seq<char>): (r: seq<char>)
    requires '\0' in s
    ensures '\0' !in r && r + ['\0'] <= s
  {
    s[..StrLen(s)]
  }

  /** A terminator found at `n` with no NUL before it is the one strlen finds. */
  lemma StrLenAt(s: seq<char>, n: nat)
    requires n < |s| && s[n] == '\0' && '\0' !in s[..n]
    ensures '\0' in s && StrLen(s) == n
  {
  }

  /** A C string literal, its terminator and whatever bytes follow hold the
      literal's characters as their C string. */
  lemma CStringOfLiteral(lit: seq<char>, rest: seq<char>)
    requires '\0' !in lit
    ensures '\0' in lit + ['\0'] + rest && CString(lit + ['\0'] + rest) == lit
  {
    var s := lit + ['\0'] + rest;
    assert s[..|lit|] == lit;
    StrLenAt(s, |lit|);
  }

  /** str_prefix: whether the buffer `str` begins with the literal `prefix`.
      The scan reads `str` only up to its own terminator: the NUL there differs
      from every character of the prefix and stops the loop, so the answer
      depends on the C string's contents alone (the second ensures). */
  function StrPrefix(str: seq<char>, prefix: seq<char>): (r: bool)
    requires '\0' in str && '\0' !in prefix
    ensures r <==> prefix <= str
    ensures r <==> prefix <= CString(str)
    decreases prefix
  {
    if prefix == [] then true
    else if str[0] != prefix[0] then false
    else
      assert str[0] != '\0' by { assert prefix[0] in prefix; }
      assert '\0' in str[1..] by {
        var k :| 0 <= k < |str| && str[k] == '\0';
        assert str[1..][k - 1] == '\0';
      }
      assert CString(str) == [str[0]] + CString(str[1..]);
      StrPrefix(str[1..], prefix[1..])
  }

  /** str_prefix_len: the length of `prefix` when the C string `str` begins with it, else 0. */
  function StrPrefixLen(str: seq<char>, prefix: seq<char>): (r: int)
    requires '\0' in str && '\0' !in prefix
    ensures prefix <= CString(str) ==> r == |prefix|
    ensures !(prefix <= CString(str)) ==> r == 0
  {
    if StrPrefix(str, prefix) then |prefix| else 0
  }
}
