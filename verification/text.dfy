/**
 * The handful of `java.lang.String` / `java.lang.Character` operations the
 * script front end relies on, restated over `seq<char>`.  Case folding is
 * ASCII-only.
 */
module Text {

  /** `Character.isWhitespace`: the Unicode space, line and paragraph
      separators except the non-breaking ones, plus the ASCII controls
      TAB..CR and FS..US. */
  predicate IsWhitespace(c: char) {
    var u := c as int;
    || (0x09 <= u <= 0x0D)
    || (0x1C <= u <= 0x20)
    || u == 0x1680
    || (0x2000 <= u <= 0x2006)
    || (0x2008 <= u <= 0x200A)
    || u == 0x2028 || u == 0x2029
    || u == 0x205F || u == 0x3000
  }

  /** The characters `String.trim` strips from both ends: code point <= U+0020. */
  predicate IsTrimmed(c: char) {
    c as int <= 0x20
  }

  /** `String.trim`: drop every leading and trailing character <= U+0020. */
  function Trim(s: seq<char>): (r: seq<char>)
    ensures |r| <= |s|
    ensures r != [] ==> !IsTrimmed(r[0]) && !IsTrimmed(r[|r| - 1])
    ensures r == [] <==> forall k :: 0 <= k < |s| ==> IsTrimmed(s[k])
  {
    TrimEnd(TrimStart(s))
  }

  function TrimStart(s: seq<char>): (r: seq<char>)
    ensures |r| <= |s| && r == s[|s| - |r|..]
    ensures r != [] ==> !IsTrimmed(r[0])
    ensures forall k :: 0 <= k < |s| - |r| ==> IsTrimmed(s[k])
  {
    if s != [] && IsTrimmed(s[0]) then TrimStart(s[1..]) else s
  }

  function TrimEnd(s: seq<char>): (r: seq<char>)
    ensures |r| <= |s| && r == s[..|r|]
    ensures r != [] ==> !IsTrimmed(r[|r| - 1])
    ensures forall k :: |r| <= k < |s| ==> IsTrimmed(s[k])
  {
    if s != [] && IsTrimmed(s[|s| - 1]) then TrimEnd(s[..|s| - 1]) else s
  }

  /** ASCII `Character.toLowerCase`. */
  function LowerChar(c: char): char {
    if 'A' <= c <= 'Z' then (c as int + 32) as char else c
  }

  /** `String.toLowerCase`, ASCII letters only. */
  function Lower(s: seq<char>): (r: seq<char>)
    ensures |r| == |s|
    ensures forall k :: 0 <= k < |s| ==> r[k] == LowerChar(s[k])
  {
    if s == [] then [] else [LowerChar(s[0])] + Lower(s[1..])
  }

  /** `String.equalsIgnoreCase` against an all-lower-case ASCII word. */
  predicate EqualsIgnoreCase(s: seq<char>, lowerWord: seq<char>) {
    Lower(s) == lowerWord
  }

  predicate IsDigit(c: char) {
    '0' <= c <= '9'
  }

  /** The regular expression `\d+`: one or more ASCII digits. */
  predicate AllDigits(s: seq<char>) {
    |s| > 0 && forall k :: 0 <= k < |s| ==> IsDigit(s[k])
  }

  /** Whether `s` holds the two characters `//` starting at `k`. */
  predicate CommentAt(s: seq<char>, k: int) {
    0 <= k && k + 1 < |s| && s[k] == '/' && s[k + 1] == '/'
  }

  /** `s.indexOf("//")`, with `|s|` standing for the -1 Java returns when there is none. */
  function CommentStart(s: seq<char>): (k: nat)
    ensures k <= |s|
    ensures k < |s| ==> CommentAt(s, k)
    ensures forall j :: 0 <= j < k ==> !CommentAt(s, j)
    ensures k == |s| ==> forall j :: 0 <= j < |s| ==> !CommentAt(s, j)
  {
    if |s| < 2 then |s|
    else if s[0] == '/' && s[1] == '/' then 0
    else
      var k := CommentStart(s[1..]);
      assert forall j :: 1 <= j < |s| ==> CommentAt(s, j) == CommentAt(s[1..], j - 1);
      k + 1
  }
}
