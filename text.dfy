/**
 * The string helpers the core relies on (the behaviour of the framework's
 * StringUtils and of java.lang.String that matters here), over `seq<char>`.
 */
module Text {
  import opened Common

  /** Character.isWhitespace for the characters below U+0080. */
  predicate IsWhitespace(c: char) {
    c == ' ' || c == '\t' || c == '\n' || c == '\r' || c == '\U{000C}' || c == '\U{000B}'
    || ('\U{001C}' <= c <= '\U{001F}')
  }

  /** StringUtils.isBlank: null, empty, or whitespace only. */
  predicate IsBlank(s: Option<string>) {
    s.None? || forall i :: 0 <= i < |s.value| ==> IsWhitespace(s.value[i])
  }

  /** Java string concatenation of a possibly-null string: null becomes "null". */
  function JavaText(s: Option<string>): string {
    match s
    case Some(v) => v
    case None => "null"
  }

  /** StringUtils.isEmpty: null or of length zero. */
  predicate IsEmpty(s: Option<string>) {
    s.None? || s.value == ""
  }

  /** `sub` occurs in `s` starting at position `j`. */
  predicate OccursAt(s: string, sub: string, j: int) {
    0 <= j <= |s| && sub <= s[j..]
  }

  /** String.indexOf: the first position at which `sub` occurs in `s`. */
  function IndexOf(s: string, sub: string): (r: Option<nat>)
    ensures r.Some? ==> r.value + |sub| <= |s| && s[r.value..r.value + |sub|] == sub
    ensures r.Some? ==> OccursAt(s, sub, r.value)
    ensures r.Some? ==> forall j :: 0 <= j < r.value ==> !OccursAt(s, sub, j)
    ensures r.None? ==> forall j :: 0 <= j <= |s| ==> !OccursAt(s, sub, j)
    decreases |s|
  {
    if sub <= s then Some(0)
    else if |s| == 0 then None
    else
      forall j | 1 <= j <= |s| ensures OccursAt(s, sub, j) <==> OccursAt(s[1..], sub, j - 1) {
        OccursAtTail(s, sub, j);
      }
      match IndexOf(s[1..], sub)
      case None => None
      case Some(i) => Some(i + 1)
  }

  /** An occurrence past the first character is an occurrence in the tail, one position earlier. */
  lemma OccursAtTail(s: string, sub: string, j: int)
    requires 1 <= j <= |s|
    ensures OccursAt(s, sub, j) <==> OccursAt(s[1..], sub, j - 1)
  {
    assert s[1..][j - 1..] == s[j..];
  }

  /** StringUtils.contains(s, sub) for non-null arguments. */
  predicate Contains(s: string, sub: string) {
    IndexOf(s, sub).Some?
  }

  lemma ContainsAt(s: string, sub: string, j: int)
    requires OccursAt(s, sub, j)
    ensures Contains(s, sub)
  {
  }

  /** A string without the first character of `sub` cannot contain `sub`. */
  lemma NotContainsWithoutFirstChar(s: string, sub: string)
    requires |sub| > 0 && sub[0] !in s
    ensures !Contains(s, sub)
  {
  }

  /** Character.toLowerCase on ASCII letters. */
  function ToLowerChar(c: char): char {
    if 'A' <= c <= 'Z' then (c as int + 32) as char else c
  }

  function ToLower(s: string): (r: string)
    ensures |r| == |s|
    ensures forall i :: 0 <= i < |s| ==> r[i] == ToLowerChar(s[i])
  {
    seq(|s|, i requires 0 <= i < |s| => ToLowerChar(s[i]))
  }

  /** StringUtils.equalsIgnoreCase(a, b) with a possibly null and b not null (ASCII folding). */
  predicate EqualsIgnoreCase(a: Option<string>, b: string) {
    a.Some? && ToLower(a.value) == ToLower(b)
  }

  /** Decimal rendering of a natural number (Convert.toStr of a non-negative Long). */
  function NatToString(n: nat): (r: string)
    ensures |r| >= 1
    ensures forall i :: 0 <= i < |r| ==> '0' <= r[i] <= '9'
    decreases n
  {
    var d := ['0' + (n % 10) as char] ;
    if n < 10 then d else NatToString(n / 10) + d
  }

  /** Join with a separator character (StreamUtils.join with ","). */
  function Join(xs: seq<string>, sep: char): string
    decreases |xs|
  {
    if |xs| == 0 then ""
    else if |xs| == 1 then xs[0]
    else xs[0] + [sep] + Join(xs[1..], sep)
  }

  /** Split on every occurrence of a separator character, keeping empty pieces. */
  function Split(s: string, sep: char): (r: seq<string>)
    ensures |r| >= 1
    decreases |s|
  {
    if |s| == 0 then [""]
    else
      var rest := Split(s[1..], sep);
      if s[0] == sep then [""] + rest
      else [[s[0]] + rest[0]] + rest[1..]
  }

  /** Splitting a separator-free prefix glues it onto the first piece. */
  lemma {:induction false} SplitFreePrefix(a: string, t: string, sep: char)
    requires sep !in a
    ensures Split(a + t, sep) == [a + Split(t, sep)[0]] + Split(t, sep)[1..]
    decreases |a|
  {
    if |a| == 0 {
      assert a + t == t;
      assert a + Split(t, sep)[0] == Split(t, sep)[0];
    } else {
      assert (a + t)[1..] == a[1..] + t;
      SplitFreePrefix(a[1..], t, sep);
      assert [a[0]] + (a[1..] + Split(t, sep)[0]) == a + Split(t, sep)[0];
    }
  }

  /** Splitting a joined list gives the list back when no element holds the separator. */
  lemma {:induction false} SplitJoin(xs: seq<string>, sep: char)
    requires |xs| >= 1
    requires forall i :: 0 <= i < |xs| ==> sep !in xs[i]
    ensures Split(Join(xs, sep), sep) == xs
    decreases |xs|
  {
    if |xs| == 1 {
      SplitFreePrefix(xs[0], "", sep);
      assert xs[0] + "" == xs[0];
    } else {
      var tail := Join(xs[1..], sep);
      SplitJoin(xs[1..], sep);
      assert xs[0] + [sep] + tail == xs[0] + ([sep] + tail);
      SplitFreePrefix(xs[0], [sep] + tail, sep);
      assert ([sep] + tail)[1..] == tail;
      assert Split([sep] + tail, sep) == [""] + xs[1..];
      assert xs[0] + "" == xs[0];
      assert [xs[0]] + xs[1..] == xs;
    }
  }

  /** The pieces of `s` between the leftmost non-overlapping occurrences of `sep`, empty ones included. */
  function Pieces(s: string, sep: string): (r: seq<string>)
    requires |sep| > 0
    ensures |r| >= 1
    decreases |s|
  {
    match IndexOf(s, sep)
    case None => [s]
    case Some(i) => [s[..i]] + Pieces(s[i + |sep|..], sep)
  }

  /** The list without its trailing empty strings. */
  function DropTrailingEmpty(xs: seq<string>): (r: seq<string>)
    ensures |r| <= |xs| && r == xs[..|r|]
    ensures forall i :: 0 <= i < |xs| && xs[i] != "" ==> i < |r|
    decreases |xs|
  {
    if |xs| == 0 then []
    else if xs[|xs| - 1] == "" then
      assert xs[..|xs| - 1][..|DropTrailingEmpty(xs[..|xs| - 1])|] == xs[..|DropTrailingEmpty(xs[..|xs| - 1])|];
      DropTrailingEmpty(xs[..|xs| - 1])
    else xs
  }

  /**
   * String.split with a literal separator and no limit: the string itself when
   * the separator does not occur, else the pieces with trailing empty ones removed
   * (a leading empty piece is kept).
   */
  function JavaSplit(s: string, sep: string): (r: seq<string>)
    requires |sep| > 0
    ensures IndexOf(s, sep).None? ==> r == [s]
  {
    if IndexOf(s, sep).None? then [s] else DropTrailingEmpty(Pieces(s, sep))
  }

  /** `c` occurs in `s` at `j`, seen as a one-character substring. */
  lemma OccursAtChar(s: string, c: char, j: int)
    ensures OccursAt(s, [c], j) <==> 0 <= j < |s| && s[j] == c
  {
    if 0 <= j < |s| && s[j] == c {
      assert s[j..][..1] == [c];
    }
  }
}
