/**
 * The email-format test of registration, the regular expression
 * `/^\S+@\S+\.\S+$/`, given once as what the expression means and once as
 * a single left-to-right check, with a proof that the two agree.
 */
module Email {
  import opened Text

  /**
   * One way the expression matches `s`: the first `\S+` is `s[..i]`, the
   * literal `@` is `s[i]`, the second `\S+` is `s[i+1..j]`, the literal `.`
   * is `s[j]` and the last `\S+` is `s[j+1..]`.
   */
  predicate RegexSplit(s: string, i: int, j: int) {
    && 0 < i && i + 1 < j && j + 1 < |s|
    && s[i] == '@' && s[j] == '.'
    && NoSpace(s[..i]) && NoSpace(s[i + 1..j]) && NoSpace(s[j + 1..])
  }

  /** `/^\S+@\S+\.\S+$/.test(s)`: some split into the five parts exists. */
  ghost predicate MatchesEmailRegex(s: string) {
    exists i, j :: RegexSplit(s, i, j)
  }

  /** The least index `k >= from` with `s[k] == c`, or -1 when there is none. */
  function IndexFrom(s: string, c: char, from: nat): (r: int)
    ensures r == -1 || (from <= r < |s| && s[r] == c)
    ensures forall k :: from <= k < |s| && (r == -1 || k < r) ==> s[k] != c
    decreases |s| - from
  {
    if from >= |s| then -1 else if s[from] == c then from else IndexFrom(s, c, from + 1)
  }

  /** The greatest index `k < end` with `s[k] == c`, or -1 when there is none. */
  function LastIndexBefore(s: string, c: char, end: nat): (r: int)
    requires end <= |s|
    ensures -1 <= r < end
    ensures r >= 0 ==> s[r] == c
    ensures forall k :: r < k < end ==> s[k] != c
  {
    if end == 0 then -1 else if s[end - 1] == c then end - 1 else LastIndexBefore(s, c, end - 1)
  }

  /**
   * The format check in one pass: no whitespace anywhere, the first `@`
   * after the first character, and the last `.` before the last character
   * at least two places after it. Because `\S` also matches `@` and `.`,
   * choosing the earliest `@` and the latest `.` leaves the most room for
   * the middle group.
   */
  function IsEmailFormat(s: string): (r: bool)
    ensures r ==> NoSpace(s) && 5 <= |s| && '@' in s[1..] && '.' in s
  {
    var i := IndexFrom(s, '@', 1);
    var j := if |s| == 0 then -1 else LastIndexBefore(s, '.', |s| - 1);
    NoSpace(s) && 0 < i && i + 1 < j
  }

  /** The one-pass check accepts exactly the strings the regular expression matches. */
  lemma EmailFormatMatchesRegex(s: string)
    ensures IsEmailFormat(s) <==> MatchesEmailRegex(s)
  {
    var i := IndexFrom(s, '@', 1);
    var j := if |s| == 0 then -1 else LastIndexBefore(s, '.', |s| - 1);
    assert IsEmailFormat(s) ==> RegexSplit(s, i, j);
    if MatchesEmailRegex(s) {
      var i0, j0 :| RegexSplit(s, i0, j0);
      NoSpaceFromParts(s, i0, j0);
    }
  }

  /** The three `\S+` groups and the two literals together cover `s`. */
  lemma NoSpaceFromParts(s: string, i: int, j: int)
    requires RegexSplit(s, i, j)
    ensures NoSpace(s)
  {
    forall k | 0 <= k < |s| ensures !IsSpace(s[k]) {
      if k < i {
        assert s[k] == s[..i][k];
      } else if i < k < j {
        assert s[k] == s[i + 1..j][k - i - 1];
      } else if j < k {
        assert s[k] == s[j + 1..][k - j - 1];
      }
    }
  }

  /** Examples: `\S` also matches `@`, so a doubled `@` passes; a missing dot or a space does not. */
  lemma EmailFormatExamples()
    ensures IsEmailFormat("a@@b.c")
    ensures IsEmailFormat("a@x.com")
    ensures !IsEmailFormat("a@b")
    ensures !IsEmailFormat("a b@c.d")
    ensures !IsEmailFormat("@b.c")
    ensures !IsEmailFormat("a@.c")
  {
    EmailFormatMatchesRegex("a@@b.c");
    EmailFormatMatchesRegex("a@x.com");
    assert RegexSplit("a@@b.c", 1, 4);
    assert RegexSplit("a@x.com", 1, 3);
    assert "a b@c.d"[1] == ' ';
  }
}
