/** The string operations the upload code relies on, stated over
    `seq<char>`: ASCII lower-casing (`toLowerCase`), an unanchored regular
    expression made of literal alternatives (`RegExp.test`), Node's
    `path.extname`, the decimal rendering of a timestamp, and the JavaScript
    `replace` / `split` used to normalise a stored path. */
module Text {
  import opened Http

  predicate IsUpper(c: char) { 'A' <= c <= 'Z' }

  function LowerChar(c: char): char {
    if IsUpper(c) then (c as int + 32) as char else c
  }

  /** `toLowerCase`, restricted to ASCII letters. */
  function ToLower(s: string): (r: string)
    ensures |r| == |s|
    ensures forall i :: 0 <= i < |s| ==> r[i] == LowerChar(s[i])
  {
    if s == [] then [] else [LowerChar(s[0])] + ToLower(s[1..])
  }

  lemma ToLowerHasNoUpper(s: string)
    ensures forall i :: 0 <= i < |ToLower(s)| ==> !IsUpper(ToLower(s)[i])
  {
  }

  // ---------------------------------------------------------------------------
  // Unanchored matching

  /** `t` occurs in `s` starting at position `i`. */
  predicate OccursAt(s: string, t: string, i: int) {
    0 <= i && i + |t| <= |s| && s[i..i + |t|] == t
  }

  /** `/t/.test(s)` for a literal `t`: the pattern may match anywhere. */
  function Contains(s: string, t: string): (r: bool)
    ensures r <==> exists i :: OccursAt(s, t, i)
    decreases |s|
  {
    if |s| < |t| then
      false
    else if s[..|t|] == t then
      assert OccursAt(s, t, 0);
      true
    else
      var r := Contains(s[1..], t);
      assert r ==> exists i :: OccursAt(s, t, i) by {
        if r {
          var i :| OccursAt(s[1..], t, i);
          assert s[1..][i..i + |t|] == s[i + 1..i + 1 + |t|];
          assert OccursAt(s, t, i + 1);
        }
      }
      assert (exists i :: OccursAt(s, t, i)) ==> r by {
        if exists i :: OccursAt(s, t, i) {
          var i :| OccursAt(s, t, i);
          assert i != 0;
          assert s[1..][i - 1..i - 1 + |t|] == s[i..i + |t|];
          assert OccursAt(s[1..], t, i - 1);
        }
      }
      r
  }

  /** A literal with a character that `s` lacks cannot occur in `s`. */
  lemma AbsentCharBlocks(s: string, t: string, c: char)
    requires c in t && c !in s
    ensures !Contains(s, t)
  {
    var k :| 0 <= k < |t| && t[k] == c;
    forall i ensures !OccursAt(s, t, i) {
      if 0 <= i && i + |t| <= |s| {
        assert s[i..i + |t|][k] == s[i + k];
      }
    }
  }

  /** `/a1|a2|.../.test(s)`: some alternative occurs somewhere in `s`. */
  predicate MatchesAny(s: string, alternatives: seq<string>) {
    exists k :: 0 <= k < |alternatives| && Contains(s, alternatives[k])
  }

  /** The first position at or after `from` where `t` occurs. */
  function FindFrom(s: string, t: string, from: nat): (r: Option<nat>)
    requires forall j :: 0 <= j < from ==> !OccursAt(s, t, j)
    ensures r.Some? ==> OccursAt(s, t, r.value) && forall j :: 0 <= j < r.value ==> !OccursAt(s, t, j)
    ensures r.None? ==> forall j :: !OccursAt(s, t, j)
    decreases |s| - from
  {
    if from + |t| > |s| then None
    else if s[from..from + |t|] == t then Some(from)
    else FindFrom(s, t, from + 1)
  }

  /** `s.indexOf(t)`, with `None` for -1. */
  function IndexOf(s: string, t: string): (r: Option<nat>)
    ensures r.Some? ==> OccursAt(s, t, r.value) && forall j :: 0 <= j < r.value ==> !OccursAt(s, t, j)
    ensures r.None? ==> forall j :: !OccursAt(s, t, j)
  {
    FindFrom(s, t, 0)
  }

  /** `s.split(sep)[1]`: the text between the first occurrence of `sep` and
      the next one (or the end); `None` (undefined) when `sep` does not occur. */
  function SecondPiece(s: string, sep: string): (r: Option<string>)
    requires sep != ""
    ensures r.None? <==> IndexOf(s, sep).None?
    ensures r.Some? ==> var rest := s[IndexOf(s, sep).value + |sep|..];
              && r.value <= rest
              && (forall j :: !OccursAt(r.value, sep, j))
              && (forall j :: 0 <= j < |r.value| ==> !OccursAt(rest, sep, j))
              && (r.value == rest || OccursAt(rest, sep, |r.value|))
  {
    match IndexOf(s, sep)
    case None => None
    case Some(i) =>
      var rest := s[i + |sep|..];
      match IndexOf(rest, sep)
      case None => Some(rest)
      case Some(j) =>
        forall k ensures !OccursAt(rest[..j], sep, k) {
          if OccursAt(rest[..j], sep, k) {
            assert rest[..j][k..k + |sep|] == rest[k..k + |sep|];
            assert OccursAt(rest, sep, k);
          }
        }
        Some(rest[..j])
  }

  /** `s.replace(/c/g, d)` for single characters. */
  function ReplaceChar(s: string, c: char, d: char): (r: string)
    ensures |r| == |s|
    ensures forall i :: 0 <= i < |s| ==> r[i] == if s[i] == c then d else s[i]
  {
    if s == [] then [] else [if s[0] == c then d else s[0]] + ReplaceChar(s[1..], c, d)
  }

  // ---------------------------------------------------------------------------
  // path.extname

  /** Where the last path component starts: just after the last '/'. */
  function BaseStart(p: string): (k: nat)
    ensures k <= |p|
    ensures '/' !in p[k..]
    ensures k > 0 ==> p[k - 1] == '/'
  {
    if p == [] then 0
    else if p[|p| - 1] == '/' then |p|
    else BaseStart(p[..|p| - 1])
  }

  function Basename(p: string): string { p[BaseStart(p)..] }

  /** The position of the last `c` in `s`. */
  function LastIndexOf(s: string, c: char): (r: Option<nat>)
    ensures r.Some? ==> r.value < |s| && s[r.value] == c && c !in s[r.value + 1..]
    ensures r.None? <==> c !in s
  {
    if s == [] then None
    else if s[|s| - 1] == c then Some(|s| - 1)
    else
      assert s == s[..|s| - 1] + [s[|s| - 1]];
      LastIndexOf(s[..|s| - 1], c)
  }

  /** Node's `path.extname` on POSIX: the last component from its last '.',
      or empty when that component has no '.', starts with its only
      meaningful '.', or is "..". Unlike Node, a trailing '/' is not
      dropped first; the names taken here are upload file names, which
      carry no directory part. */
  function ExtName(p: string): (r: string)
    ensures |r| <= |Basename(p)| && r == Basename(p)[|Basename(p)| - |r|..]
    ensures r != "" ==> r[0] == '.' && '.' !in r[1..] && '/' !in r
    ensures r == "" <==> || '.' !in Basename(p)
                         || (Basename(p)[0] == '.' && '.' !in Basename(p)[1..])
                         || Basename(p) == ".."
  {
    var b := Basename(p);
    match LastIndexOf(b, '.')
    case None => ""
    case Some(k) =>
      if k == 0 || b == ".." then "" else b[k..]
  }

  /** The extension of a plain file name `stem + ext` is `ext`. */
  lemma ExtNameOfPlainName(stem: string, ext: string)
    requires stem != [] && '.' !in stem && '/' !in stem
    requires |ext| >= 1 && ext[0] == '.' && '.' !in ext[1..] && '/' !in ext
    ensures ExtName(stem + ext) == ext
  {
    var p := stem + ext;
    assert '/' !in p;
    assert forall j :: 0 <= j < |p| ==> p[j] != '/';
    assert BaseStart(p) == 0;
    assert Basename(p) == p;
    assert p[|stem|] == '.' && '.' !in p[|stem| + 1..] by {
      assert p[|stem| + 1..] == ext[1..];
    }
    assert forall k :: 0 <= k < |stem| ==> p[k] == stem[k] && p[k] != '.';
    assert forall k :: |stem| < k < |p| ==> p[k] == ext[k - |stem|] && p[k] != '.' by {
      forall k | |stem| < k < |p| ensures p[k] == ext[k - |stem|] && p[k] != '.' {
        assert ext[k - |stem|] == ext[1..][k - |stem| - 1];
      }
    }
    var r := LastIndexOf(p, '.');
    assert r.Some?;
    assert p[r.value] == '.';
    assert r.value == |stem|;
    assert p != "..";
  }

  // ---------------------------------------------------------------------------
  // Decimal rendering of a timestamp (template-literal interpolation)

  predicate IsDigit(c: char) { '0' <= c <= '9' }

  predicate AllDigits(s: string) { forall i :: 0 <= i < |s| ==> IsDigit(s[i]) }

  function DigitChar(d: nat): (c: char)
    requires d < 10
    ensures IsDigit(c)
  {
    ('0' as int + d) as char
  }

  /** `${n}` for a non-negative integer: its decimal digits, no leading zero. */
  function Decimal(n: nat): (r: string)
    ensures |r| >= 1 && AllDigits(r)
    ensures |r| > 1 ==> r[0] != '0'
  {
    if n < 10 then [DigitChar(n)] else Decimal(n / 10) + [DigitChar(n % 10)]
  }

  function ParseDecimal(s: string): nat
    requires AllDigits(s)
  {
    if s == [] then 0
    else ParseDecimal(s[..|s| - 1]) * 10 + (s[|s| - 1] as int - '0' as int)
  }

  lemma {:induction false} DecimalRoundTrip(n: nat)
    ensures ParseDecimal(Decimal(n)) == n
  {
    if n >= 10 {
      var d := Decimal(n);
      assert d[..|d| - 1] == Decimal(n / 10);
      DecimalRoundTrip(n / 10);
    }
  }

  /** The longest prefix of `s` made of digits. */
  function DigitsPrefix(s: string): (k: nat)
    ensures k <= |s| && AllDigits(s[..k])
    ensures k < |s| ==> !IsDigit(s[k])
  {
    if s == [] || !IsDigit(s[0]) then 0
    else
      var k := 1 + DigitsPrefix(s[1..]);
      assert s[..k] == [s[0]] + s[1..][..k - 1];
      k
  }

  lemma DigitsPrefixOfAppend(d: string, e: string)
    requires AllDigits(d)
    requires e == [] || !IsDigit(e[0])
    ensures DigitsPrefix(d + e) == |d|
  {
    if d != [] {
      assert (d + e)[1..] == d[1..] + e;
      DigitsPrefixOfAppend(d[1..], e);
    }
  }
}
