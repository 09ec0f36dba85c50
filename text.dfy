/** The parts of Python's `str` and `os.path` behaviour that the player relies
    on, written out: slicing with clamped bounds, `isspace`/`strip`,
    `splitlines`, `replace`, `endswith`, POSIX `basename`/`join`, and `str()`
    of an integer. */
module PyStr {

  /** A slice bound as Python normalises it for a sequence of length `n`:
      negative bounds count from the end, and both kinds are clamped to `[0, n]`. */
  function SliceBound(i: int, n: nat): (b: nat)
    ensures b <= n
    ensures 0 <= i <= n ==> b == i
    ensures i < 0 && 0 <= i + n ==> b == i + n
    ensures i + n < 0 ==> b == 0
    ensures i > n ==> b == n
  {
    if i < 0 then (if i + n < 0 then 0 else i + n)
    else if i > n then n
    else i
  }

  /** `s[lo:hi]` with Python semantics: an empty result when the normalised
      bounds cross, never an index error. */
  function Slice(s: string, lo: int, hi: int): (r: string)
    ensures |r| <= |s|
    ensures SliceBound(lo, |s|) <= SliceBound(hi, |s|) ==> r == s[SliceBound(lo, |s|)..SliceBound(hi, |s|)]
    ensures SliceBound(lo, |s|) >= SliceBound(hi, |s|) ==> r == ""
  {
    var a, b := SliceBound(lo, |s|), SliceBound(hi, |s|);
    if a < b then s[a..b] else ""
  }

  /** `s.endswith(suffix)`. */
  predicate EndsWith(s: string, suffix: string)
    ensures EndsWith(s, suffix) <==> |suffix| <= |s| && s == s[..|s| - |suffix|] + suffix
  {
    |suffix| <= |s| && s[|s| - |suffix|..] == suffix
  }

  /** `c.isspace()`: the characters Python's `str.strip()` removes by default. */
  predicate IsSpace(c: char)
    ensures c == ' ' || c == '\t' || c == '\n' || c == '\r' ==> IsSpace(c)
    ensures IsSpace(c) ==> c == ' ' || c < ' ' || c >= '\U{0085}'
  {
    ('\U{0009}' <= c <= '\U{000D}') || ('\U{001C}' <= c <= '\U{001F}') || c == ' '
    || c == '\U{0085}' || c == '\U{00A0}' || c == '\U{1680}'
    || ('\U{2000}' <= c <= '\U{200A}') || c == '\U{2028}' || c == '\U{2029}'
    || c == '\U{202F}' || c == '\U{205F}' || c == '\U{3000}'
  }

  /** The characters at which `str.splitlines()` ends a line. */
  predicate IsLineBreak(c: char)
    ensures c == '\n' || c == '\r' ==> IsLineBreak(c)
    ensures IsLineBreak(c) ==> IsSpace(c) && c != ' ' && c != '\t'
  {
    c == '\n' || c == '\r' || c == '\U{000B}' || c == '\U{000C}'
    || c == '\U{001C}' || c == '\U{001D}' || c == '\U{001E}'
    || c == '\U{0085}' || c == '\U{2028}' || c == '\U{2029}'
  }

  lemma LineBreakIsSpace(c: char)
    ensures IsLineBreak(c) ==> IsSpace(c)
  {
  }

  /** How many white-space characters `s` starts with. */
  function LeadingSpace(s: string): (k: nat)
    ensures k <= |s|
    ensures forall i :: 0 <= i < k ==> IsSpace(s[i])
    ensures k < |s| ==> !IsSpace(s[k])
    decreases |s|
  {
    if s == "" || !IsSpace(s[0]) then 0 else 1 + LeadingSpace(s[1..])
  }

  /** Where the white space that `s` ends with begins. */
  function TrailingSpace(s: string): (k: nat)
    ensures k <= |s|
    ensures forall i :: k <= i < |s| ==> IsSpace(s[i])
    ensures k > 0 ==> !IsSpace(s[k - 1])
    decreases |s|
  {
    if s == "" || !IsSpace(s[|s| - 1]) then |s| else TrailingSpace(s[..|s| - 1])
  }

  /** `s.strip()`: the run of `s` between its first and its last non-space
      character, at offset `LeadingSpace(s)`. */
  function Strip(s: string): (r: string)
    ensures r != "" ==> !IsSpace(r[0]) && !IsSpace(r[|r| - 1])
    ensures r == "" <==> forall i :: 0 <= i < |s| ==> IsSpace(s[i])
    ensures LeadingSpace(s) + |r| <= |s|
    ensures r == s[LeadingSpace(s)..LeadingSpace(s) + |r|]
  {
    var a := LeadingSpace(s);
    var t := s[a..];
    var r := t[..TrailingSpace(t)];
    StripEnds(s, a, t, r);
    r
  }

  lemma StripEnds(s: string, a: nat, t: string, r: string)
    requires a == LeadingSpace(s) && t == s[a..] && r == t[..TrailingSpace(t)]
    ensures r != "" ==> !IsSpace(r[0]) && !IsSpace(r[|r| - 1])
    ensures r == "" <==> forall i :: 0 <= i < |s| ==> IsSpace(s[i])
    ensures a + |r| <= |s| && r == s[a..a + |r|]
  {
    var e := TrailingSpace(t);
    StripCut(s, a, t, e, r);
  }

  /** `StripEnds` over the facts about the two cuts alone. */
  lemma StripCut(s: string, a: nat, t: string, e: nat, r: string)
    requires a <= |s| && t == s[a..] && e <= |t| && r == t[..e]
    requires forall i :: 0 <= i < a ==> IsSpace(s[i])
    requires a < |s| ==> !IsSpace(s[a])
    requires forall i :: e <= i < |t| ==> IsSpace(t[i])
    requires e > 0 ==> !IsSpace(t[e - 1])
    ensures r != "" ==> !IsSpace(r[0]) && !IsSpace(r[|r| - 1])
    ensures r == "" <==> forall i :: 0 <= i < |s| ==> IsSpace(s[i])
    ensures a + |r| <= |s| && r == s[a..a + |r|]
  {
    if r != "" {
      assert r[0] == s[a];
      assert r[|r| - 1] == t[e - 1];
      NotAllSpaceAt(s, a);
    }
  }

  lemma NotAllSpaceAt(s: string, a: nat)
    requires a < |s| && !IsSpace(s[a])
    ensures !forall i :: 0 <= i < |s| ==> IsSpace(s[i])
  {
  }

  /** Stripping a string that has no surrounding blanks changes nothing. */
  lemma {:induction false} StripFixed(s: string)
    requires s != "" ==> !IsSpace(s[0]) && !IsSpace(s[|s| - 1])
    ensures Strip(s) == s
  {
  }

  /** Stripping is idempotent. */
  lemma StripIdempotent(s: string)
    ensures Strip(Strip(s)) == Strip(s)
  {
    StripFixed(Strip(s));
  }

  /** Index of the first line break in `s`, or `|s|` when there is none. */
  function FirstBreak(s: string): (k: nat)
    ensures k <= |s|
    ensures forall i :: 0 <= i < k ==> !IsLineBreak(s[i])
    ensures k < |s| ==> IsLineBreak(s[k])
  {
    if s == "" || IsLineBreak(s[0]) then 0 else 1 + FirstBreak(s[1..])
  }

  /** Where the text after the first line ends up: past the break, and past
      both characters of a `\r\n` pair. */
  function AfterBreak(s: string, k: nat): (r: nat)
    requires k < |s|
    ensures k < r <= |s|
  {
    if s[k] == '\r' && k + 1 < |s| && s[k + 1] == '\n' then k + 2 else k + 1
  }

  /** `s.splitlines()`: the lines of `s` without their line breaks; a final
      line break does not start a further, empty line. */
  function SplitLines(s: string): (lines: seq<string>)
    ensures forall j, i :: 0 <= j < |lines| && 0 <= i < |lines[j]| ==> !IsLineBreak(lines[j][i])
    ensures |lines| <= |s|
    decreases |s|
  {
    if s == "" then []
    else
      var k := FirstBreak(s);
      if k == |s| then [s]
      else [s[..k]] + SplitLines(s[AfterBreak(s, k)..])
  }

  /** The lines `ls`, each followed by a line feed. */
  function JoinLines(ls: seq<string>): (s: string)
    ensures |s| >= |ls|
    decreases |ls|
  {
    if ls == [] then "" else ls[0] + "\n" + JoinLines(ls[1..])
  }

  /** A line without breaks, then a line feed, is the first of the lines. */
  lemma SplitLinesFirst(line: string, rest: string)
    requires forall i :: 0 <= i < |line| ==> !IsLineBreak(line[i])
    ensures SplitLines(line + "\n" + rest) == [line] + SplitLines(rest)
  {
    var s := line + "\n" + rest;
    var k := FirstBreak(s);
    assert s[|line|] == '\n';
    assert k == |line|;
    assert AfterBreak(s, k) == |line| + 1;
    assert s[..k] == line && s[|line| + 1..] == rest;
  }

  /** Splitting undoes joining: lines without breaks, each ended by a line
      feed, split back into the same lines (empty ones included). */
  lemma {:induction false} SplitJoinLines(ls: seq<string>)
    requires forall j, i :: 0 <= j < |ls| && 0 <= i < |ls[j]| ==> !IsLineBreak(ls[j][i])
    ensures SplitLines(JoinLines(ls)) == ls
    decreases |ls|
  {
    if ls != [] {
      SplitLinesFirst(ls[0], JoinLines(ls[1..]));
      SplitJoinLines(ls[1..]);
    }
  }

  /** `s.replace(pat, rep)`: every occurrence of `pat`, scanning left to
      right without overlaps, replaced by `rep`. */
  function ReplaceAll(s: string, pat: string, rep: string): (r: string)
    requires pat != ""
    ensures rep == pat ==> r == s
    ensures |rep| <= |pat| ==> |r| <= |s|
    ensures |rep| == |pat| ==> |r| == |s|
    decreases |s|
  {
    if |pat| <= |s| && s[..|pat|] == pat then rep + ReplaceAll(s[|pat|..], pat, rep)
    else if s == "" then ""
    else [s[0]] + ReplaceAll(s[1..], pat, rep)
  }

  /** `pat` occurs in `s` starting at position `i`. */
  predicate OccursAt(s: string, pat: string, i: nat)
  {
    i + |pat| <= |s| && s[i..i + |pat|] == pat
  }

  /** Text in which `pat` never starts is left as it is by `replace`. */
  lemma {:induction false} ReplaceAbsent(s: string, pat: string, rep: string)
    requires pat != ""
    requires forall i: nat :: !OccursAt(s, pat, i)
    ensures ReplaceAll(s, pat, rep) == s
  {
    if s != "" {
      assert !OccursAt(s, pat, 0);
      var t := s[1..];
      forall i: nat ensures !OccursAt(t, pat, i) {
        assert !OccursAt(s, pat, i + 1);
        if i + |pat| <= |t| {
          assert t[i..i + |pat|] == s[i + 1..i + 1 + |pat|];
        }
      }
      ReplaceAbsent(t, pat, rep);
      assert s == [s[0]] + t;
    }
  }

  /** POSIX `os.path.basename`: the text after the last `/`. */
  function Basename(path: string): (r: string)
    ensures |r| <= |path| && r == path[|path| - |r|..]
    ensures forall i :: 0 <= i < |r| ==> r[i] != '/'
    ensures |r| < |path| ==> path[|path| - |r| - 1] == '/'
  {
    path[LastIndexOf(path, '/') + 1..]
  }

  /** POSIX `os.path.join(a, b)`. */
  function JoinPath(a: string, b: string): (r: string)
    ensures b != "" && b[0] == '/' ==> r == b
    ensures (b == "" || b[0] != '/') ==> EndsWith(r, b)
  {
    if b != "" && b[0] == '/' then b
    else if a == "" || a[|a| - 1] == '/' then a + b
    else a + "/" + b
  }

  /** The base name of a directory entry joined onto a directory is the entry itself. */
  lemma {:induction false} BasenameOfJoin(dir: string, name: string)
    requires forall i :: 0 <= i < |name| ==> name[i] != '/'
    requires name != ""
    ensures Basename(JoinPath(dir, name)) == name
  {
    var p := JoinPath(dir, name);
    assert p[|p| - |name|..] == name;
    BasenameOfSuffix(p, name);
  }

  lemma BasenameOfSuffix(p: string, name: string)
    requires forall i :: 0 <= i < |name| ==> name[i] != '/'
    requires |name| <= |p| && p[|p| - |name|..] == name
    requires |name| < |p| ==> p[|p| - |name| - 1] == '/'
    ensures Basename(p) == name
  {
    var k := |p| - |name|;
    forall i | k <= i < |p|
      ensures p[i] != '/'
    {
      assert p[i] == name[i - k];
    }
    if k == 0 {
      LastIndexBefore(p, '/', 0);
    } else {
      LastIndexAfter(p, '/', k - 1);
    }
  }

  /** Index of the last `c` in `s`, or -1: `s.rfind(c)`. */
  function LastIndexOf(s: string, c: char): (k: int)
    ensures -1 <= k < |s|
    ensures k >= 0 ==> s[k] == c
    ensures forall i :: k < i < |s| ==> s[i] != c
  {
    if s == "" then -1
    else if s[|s| - 1] == c then |s| - 1
    else LastIndexOf(s[..|s| - 1], c)
  }

  /** The first part of POSIX `os.path.splitext(p)`: `p` without its
      extension. The extension starts at the last `.` of the last path
      component, unless everything before that dot in the component is dots. */
  function SplitExtRoot(p: string): (root: string)
    ensures |root| <= |p| && root == p[..|root|]
    ensures |root| < |p| ==> p[|root|] == '.' && forall i :: |root| < i < |p| ==> p[i] != '.' && p[i] != '/'
  {
    var sep := LastIndexOf(p, '/');
    var dot := LastIndexOf(p, '.');
    if dot > sep && exists i :: sep < i < dot && p[i] != '.' then p[..dot] else p
  }

  /** Splitting the extension off `root + "." + ext` gives back `root`, when
      `ext` has no dot or slash and the last component of `root` is not all dots. */
  lemma SplitExtOf(root: string, ext: string)
    requires forall i :: 0 <= i < |ext| ==> ext[i] != '.' && ext[i] != '/'
    requires |root| > 0 && root[|root| - 1] != '.' && root[|root| - 1] != '/'
    ensures SplitExtRoot(root + "." + ext) == root
  {
    var p := root + "." + ext;
    assert LastIndexOf(p, '.') == |root| by {
      LastIndexAfter(p, '.', |root|);
    }
    assert LastIndexOf(p, '/') < |root| by {
      LastIndexBefore(p, '/', |root|);
    }
    assert p[|root| - 1] != '.';
    assert p[..|root|] == root;
  }

  /** `c` at `k` and nowhere after it makes `k` the last index of `c`. */
  lemma {:induction false} LastIndexAfter(s: string, c: char, k: nat)
    requires k < |s| && s[k] == c && forall i :: k < i < |s| ==> s[i] != c
    ensures LastIndexOf(s, c) == k
    decreases |s|
  {
    if k < |s| - 1 {
      LastIndexAfter(s[..|s| - 1], c, k);
    }
  }

  /** No `c` at or after `k` puts the last index of `c` before `k`. */
  lemma {:induction false} LastIndexBefore(s: string, c: char, k: nat)
    requires k <= |s| && forall i :: k <= i < |s| ==> s[i] != c
    ensures LastIndexOf(s, c) < k
    decreases |s|
  {
    if |s| > k {
      LastIndexBefore(s[..|s| - 1], c, k);
    }
  }

  /** The decimal digit for `d`. */
  function Digit(d: nat): char
    requires d < 10
  {
    "0123456789"[d]
  }

  /** The number a string of decimal digits spells. */
  function DecimalValue(s: string): nat
  {
    if s == "" then 0
    else DecimalValue(s[..|s| - 1]) * 10 + DigitValue(s[|s| - 1])
  }

  function DigitValue(c: char): nat
  {
    if '0' <= c <= '9' then (c as int - '0' as int) else 0
  }

  /** `str(n)` for a natural number: its decimal digits, without leading zeros. */
  function NatToStr(n: nat): (r: string)
    ensures r != ""
    ensures forall i :: 0 <= i < |r| ==> '0' <= r[i] <= '9'
    ensures |r| > 1 ==> r[0] != '0'
    decreases n
  {
    if n < 10 then [Digit(n)] else NatToStr(n / 10) + [Digit(n % 10)]
  }

  /** Reading back the digits that `NatToStr` writes gives the number. */
  lemma {:induction false} NatToStrValue(n: nat)
    ensures DecimalValue(NatToStr(n)) == n
    decreases n
  {
    if n >= 10 {
      NatToStrValue(n / 10);
      var s := NatToStr(n);
      assert s[..|s| - 1] == NatToStr(n / 10);
    }
  }

  /** `str(i)` for any integer: a minus sign before the digits of a negative one. */
  function IntToStr(i: int): (r: string)
    ensures r != "" && (r[0] == '-' <==> i < 0)
    ensures i >= 0 ==> DecimalValue(r) == i
    ensures i < 0 ==> DecimalValue(r[1..]) == -i && forall k :: 1 <= k < |r| ==> '0' <= r[k] <= '9'
  {
    if i < 0 then
      NatToStrValue(-i);
      "-" + NatToStr(-i)
    else
      NatToStrValue(i);
      NatToStr(i)
  }
}
