/** Byte-string searches shared by the parsers: a string stands for a buffer of bytes. */
module Text {

  datatype Option<+T> = None | Some(value: T)

  /** Position of the first `c` in `s`, or `|s|` when there is none. */
  function IndexOf(s: string, c: char): (i: nat)
    ensures i <= |s|
    ensures i < |s| ==> s[i] == c
    ensures c !in s[..i]
  {
    if s == [] || s[0] == c then 0
    else
      var j := IndexOf(s[1..], c);
      assert s[..1 + j] == [s[0]] + s[1..][..j];
      1 + j
  }

  predicate CrlfAt(s: string, i: nat) {
    i + 1 < |s| && s[i] == '\r' && s[i + 1] == '\n'
  }

  predicate HasCrlf(s: string) {
    exists i | 0 <= i < |s| :: CrlfAt(s, i)
  }

  /** Position of the first CRLF in `s`, or `|s|` when there is none. */
  function FindCrlf(s: string): (i: nat)
    ensures i <= |s|
    ensures i < |s| ==> CrlfAt(s, i)
    ensures forall k | 0 <= k < i :: !CrlfAt(s, k)
  {
    if s == [] || CrlfAt(s, 0) then 0
    else
      var j := FindCrlf(s[1..]);
      assert forall k | 0 < k < 1 + j :: CrlfAt(s, k) ==> CrlfAt(s[1..], k - 1);
      1 + j
  }

  /** A CRLF, once found, is not moved by the bytes that arrive after it. */
  lemma FindCrlfStable(a: string, b: string)
    requires FindCrlf(a) < |a|
    ensures FindCrlf(a + b) == FindCrlf(a)
  {
    var i := FindCrlf(a);
    assert CrlfAt(a + b, i);
    assert forall k | 0 <= k < i :: CrlfAt(a + b, k) ==> CrlfAt(a, k);
  }

  /** A line without CRLF ends exactly where its own terminator starts, even when it ends in '\r'. */
  lemma FindCrlfAfterLine(line: string, rest: string)
    requires !HasCrlf(line)
    ensures FindCrlf(line + "\r\n" + rest) == |line|
  {
    var s := line + "\r\n" + rest;
    assert CrlfAt(s, |line|);
    forall k | 0 <= k < |line|
      ensures !CrlfAt(s, k)
    {
      assert !CrlfAt(line, k);
    }
  }

  /** `needle` occurs in `hay`. */
  predicate Contains(hay: string, needle: string) {
    exists i | 0 <= i <= |hay| :: needle <= hay[i..]
  }

  /** That is what finding it means. */
  lemma ContainsIsInfix(hay: string, needle: string)
    ensures Contains(hay, needle) <==> exists before, after :: hay == before + needle + after
  {
    if Contains(hay, needle) {
      var i :| 0 <= i <= |hay| && needle <= hay[i..];
      assert hay == hay[..i] + needle + hay[i + |needle|..];
    }
    if exists before, after :: hay == before + needle + after {
      var before, after :| hay == before + needle + after;
      InfixIsFound(before, needle, after);
    }
  }

  lemma InfixIsFound(before: string, needle: string, after: string)
    ensures Contains(before + needle + after, needle)
  {
    var hay := before + needle + after;
    assert hay[|before|..] == needle + after;
    assert 0 <= |before| <= |hay| && needle <= hay[|before|..];
  }

  predicate StartsWith(s: string, prefix: string) {
    prefix <= s
  }

  /** The bytes the C locale's isspace accepts. */
  predicate IsSpace(c: char) {
    c == ' ' || c == '\t' || c == '\n' || c == 11 as char || c == 12 as char || c == '\r'
  }

  predicate IsDigit(c: char) {
    '0' <= c <= '9'
  }

  function ToLower(c: char): char {
    if 'A' <= c <= 'Z' then (c as int + 32) as char else c
  }

  function Lower(s: string): (r: string)
    ensures |r| == |s|
  {
    seq(|s|, i requires 0 <= i < |s| => ToLower(s[i]))
  }

  /** The capital letters of ASCII are lowered, and nothing else is changed. */
  lemma CapitalsAreLowered(s: string)
    ensures Lower("ABCDEFGHIJKLMNOPQRSTUVWXYZ") == "abcdefghijklmnopqrstuvwxyz"
    ensures forall i | 0 <= i < |s| && s[i] !in "ABCDEFGHIJKLMNOPQRSTUVWXYZ" :: Lower(s)[i] == s[i]
  {
    var capitals := "ABCDEFGHIJKLMNOPQRSTUVWXYZ";
    forall c | 'A' <= c <= 'Z'
      ensures c in capitals
    {
      assert capitals[c as int - 65] == c;
    }
  }

  lemma Associative<T>(a: seq<T>, b: seq<T>, c: seq<T>)
    ensures a + b + c == a + (b + c)
  {
  }

  function Concat(parts: seq<string>): string {
    if parts == [] then "" else parts[0] + Concat(parts[1..])
  }
}
