/**
 * The few pieces of JavaScript string semantics the application relies on:
 * the white-space class shared by `String.prototype.trim` and the regular
 * expression escape `\s`, `trim()` itself, the e-mail pattern
 * `^\S+@\S+\.\S+$`, the phone pattern `^\d{10}$`, `split(" ")[1]` and
 * template interpolation.
 */
module JsText {
  import opened Wrappers

  /** The characters that `trim()` removes and that `\s` matches. */
  predicate IsSpace(c: char) {
    c == '\t' || c == '\n' || c == '\U{000B}' || c == '\U{000C}' || c == '\r' || c == ' '
    || c == '\U{00A0}' || c == '\U{1680}' || ('\U{2000}' <= c <= '\U{200A}')
    || c == '\U{2028}' || c == '\U{2029}' || c == '\U{202F}' || c == '\U{205F}'
    || c == '\U{3000}' || c == '\U{FEFF}'
  }

  /** `s` holds white space only (the empty string included). */
  ghost predicate IsBlank(s: string) {
    forall i | 0 <= i < |s| :: IsSpace(s[i])
  }

  /** `s` holds no white space at all. */
  predicate NoSpace(s: string) {
    forall i | 0 <= i < |s| :: !IsSpace(s[i])
  }

  /** `trimStart()`: drop the white space at the start. */
  function TrimStart(s: string): string {
    if s != [] && IsSpace(s[0]) then TrimStart(s[1..]) else s
  }

  /** `trimEnd()`: drop the white space at the end. */
  function TrimEnd(s: string): string {
    if s != [] && IsSpace(s[|s| - 1]) then TrimEnd(s[..|s| - 1]) else s
  }

  /** `trim()`. */
  function Trim(s: string): string {
    TrimEnd(TrimStart(s))
  }

  /** `trimStart()` gives the longest suffix of `s` that does not start with white space. */
  lemma {:induction false} TrimStartSuffix(s: string)
    ensures var r := TrimStart(s);
            && |r| <= |s| && r == s[|s| - |r|..]
            && (forall i | 0 <= i < |s| - |r| :: IsSpace(s[i]))
            && (r != [] ==> !IsSpace(r[0]))
  {
    if s != [] && IsSpace(s[0]) {
      TrimStartSuffix(s[1..]);
      var r := TrimStart(s[1..]);
      assert s[1..][|s| - 1 - |r|..] == s[|s| - |r|..];
      forall i | 0 <= i < |s| - |r| ensures IsSpace(s[i]) {
        if i > 0 {
          assert s[i] == s[1..][i - 1];
        }
      }
    }
  }

  /** `trimEnd()` gives the longest prefix of `s` that does not end with white space. */
  lemma {:induction false} TrimEndPrefix(s: string)
    ensures var r := TrimEnd(s);
            && |r| <= |s| && r == s[..|r|]
            && (forall i | |r| <= i < |s| :: IsSpace(s[i]))
            && (r != [] ==> !IsSpace(r[|r| - 1]))
  {
    if s != [] && IsSpace(s[|s| - 1]) {
      TrimEndPrefix(s[..|s| - 1]);
      var r := TrimEnd(s[..|s| - 1]);
      assert s[..|s| - 1][..|r|] == s[..|r|];
      forall i | |r| <= i < |s| ensures IsSpace(s[i]) {
        if i < |s| - 1 {
          assert s[i] == s[..|s| - 1][i];
        }
      }
    }
  }

  /** `!s.trim()` holds exactly when `s` is white space only. */
  lemma TrimEmptyIffBlank(s: string)
    ensures Trim(s) == "" <==> IsBlank(s)
  {
    var t := TrimStart(s);
    TrimStartSuffix(s);
    TrimEndPrefix(t);
    if !IsBlank(s) {
      var k :| 0 <= k < |s| && !IsSpace(s[k]);
      assert |s| - |t| <= k;
      assert !IsSpace(t[0]);
    }
  }

  /** `s.indexOf(c)`, absent as `None`. */
  function FirstIndexOf(s: string, c: char): Option<nat> {
    if s == [] then None
    else if s[0] == c then Some(0)
    else match FirstIndexOf(s[1..], c)
      case None => None
      case Some(k) => Some(k + 1)
  }

  /** `s.lastIndexOf(c)`, absent as `None`. */
  function LastIndexOf(s: string, c: char): Option<nat> {
    if s == [] then None
    else if s[|s| - 1] == c then Some(|s| - 1)
    else LastIndexOf(s[..|s| - 1], c)
  }

  /** `indexOf` finds an occurrence of `c`, and no occurrence comes before it. */
  lemma {:induction false} FirstIndexOfFound(s: string, c: char)
    ensures var r := FirstIndexOf(s, c);
            && (r.Some? ==> r.value < |s| && s[r.value] == c)
            && (forall k | 0 <= k < |s| && (r.None? || k < r.value) :: s[k] != c)
  {
    if s != [] && s[0] != c {
      FirstIndexOfFound(s[1..], c);
      forall k | 1 <= k < |s| ensures s[k] == s[1..][k - 1] {
      }
    }
  }

  /** `lastIndexOf` finds an occurrence of `c`, and no occurrence comes after it. */
  lemma {:induction false} LastIndexOfFound(s: string, c: char)
    ensures var r := LastIndexOf(s, c);
            && (r.Some? ==> r.value < |s| && s[r.value] == c)
            && (forall k | 0 <= k < |s| && (r.None? || k > r.value) :: s[k] != c)
  {
    if s != [] && s[|s| - 1] != c {
      LastIndexOfFound(s[..|s| - 1], c);
      forall k | 0 <= k < |s| - 1 ensures s[k] == s[..|s| - 1][k] {
      }
    }
  }

  /**
   * The language of `^\S+@\S+\.\S+$`: a non-empty run, `@`, a non-empty
   * run, `.`, a non-empty run, none of them holding white space (a run may
   * itself hold `@` or `.`).
   */
  ghost predicate EmailShaped(s: string) {
    NoSpace(s) &&
    exists i, j :: 0 < i && i + 1 < j && j + 1 < |s| && s[i] == '@' && s[j] == '.'
  }

  /**
   * The regular-expression test `/^\S+@\S+\.\S+$/.test(s)`, decided by
   * taking the first `@` after the first character and the last `.` before
   * the last character.
   */
  function TestEmail(s: string): (b: bool) {
    NoSpace(s) && |s| >= 5 &&
    var at := FirstIndexOf(s[1..], '@');
    var dot := LastIndexOf(s[..|s| - 1], '.');
    at.Some? && dot.Some? && at.value + 2 < dot.value
  }

  /** The decision procedure accepts exactly the pattern's language. */
  lemma TestEmailIffShaped(s: string)
    ensures TestEmail(s) <==> EmailShaped(s)
  {
    if |s| >= 2 {
      FirstIndexOfFound(s[1..], '@');
      LastIndexOfFound(s[..|s| - 1], '.');
    }
    if TestEmail(s) {
      var i := FirstIndexOf(s[1..], '@').value + 1;
      var j := LastIndexOf(s[..|s| - 1], '.').value;
      assert s[i] == s[1..][i - 1];
      assert s[j] == s[..|s| - 1][j];
      assert 0 < i && i + 1 < j && j + 1 < |s| && s[i] == '@' && s[j] == '.';
    }
    if EmailShaped(s) {
      var i, j :| 0 < i && i + 1 < j && j + 1 < |s| && s[i] == '@' && s[j] == '.';
      assert s[1..][i - 1] == '@';
      assert s[..|s| - 1][j] == '.';
      var at := FirstIndexOf(s[1..], '@');
      var dot := LastIndexOf(s[..|s| - 1], '.');
      assert at.Some? && at.value <= i - 1;
      assert dot.Some? && dot.value >= j;
    }
  }

  /** `^\d{10}$`: exactly ten ASCII digits. */
  predicate PhoneShaped(s: string) {
    |s| == 10 && forall i | 0 <= i < |s| :: '0' <= s[i] <= '9'
  }

  /**
   * `s.split(" ")[1]`: the text between the first and the second space
   * (or the end), `None` (JavaScript's `undefined`) when `s` has no space.
   */
  function SecondWord(s: string): (r: Option<string>)
    ensures r.Some? ==> ' ' !in r.value
    ensures r.None? <==> ' ' !in s
  {
    FirstIndexOfFound(s, ' ');
    match FirstIndexOf(s, ' ')
    case None => None
    case Some(i) =>
      var rest := s[i + 1..];
      FirstIndexOfFound(rest, ' ');
      match FirstIndexOf(rest, ' ')
      case None => Some(rest)
      case Some(j) => Some(rest[..j])
  }

  /** Reading back the header that `Bearer ${token}` builds gives the token. */
  lemma SecondWordOfBearer(token: string)
    requires ' ' !in token
    ensures SecondWord("Bearer " + token) == Some(token)
  {
    var h := "Bearer " + token;
    FirstIndexOfFound(h, ' ');
    FirstIndexOfFound(token, ' ');
    assert h[6] == ' ' && forall k | 0 <= k < 6 :: h[k] != ' ';
    assert FirstIndexOf(h, ' ') == Some(6);
    assert h[7..] == token;
  }

  /** How a possibly missing value reads inside a template literal: `undefined` when absent. */
  function Interpolate(v: Option<string>): string {
    v.GetOr("undefined")
  }
}
