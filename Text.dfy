/** String operations the orchestrator uses: Python's `str.startswith`,
    `str.endswith`, the POSIX forms of `os.path.basename`, `os.path.splitext`
    and `os.path.join`, and `str(int)` with a parser that reads an integer
    back off the end of a string. */
module Text {
  import opened Wrappers

  predicate StartsWith(s: string, prefix: string) {
    |prefix| <= |s| && s[..|prefix|] == prefix
  }

  predicate EndsWith(s: string, suffix: string) {
    |suffix| <= |s| && s[|s| - |suffix|..] == suffix
  }

  /** A string ends with every string it is extended by. */
  lemma EndsWithConcat(s: string, t: string, suffix: string)
    requires EndsWith(t, suffix)
    ensures EndsWith(s + t, suffix)
  {
    assert (s + t)[|s + t| - |suffix|..] == t[|t| - |suffix|..];
  }

  /** `str.rfind(c)`: the index of the last occurrence of `c`, if any. */
  function LastIndexOf(s: string, c: char): (r: Option<nat>)
    ensures r.None? <==> c !in s
    ensures r.Some? ==> r.value < |s| && s[r.value] == c
    ensures r.Some? ==> forall j :: r.value < j < |s| ==> s[j] != c
  {
    if s == [] then None
    else if s[|s| - 1] == c then Some(|s| - 1)
    else
      var r := LastIndexOf(s[..|s| - 1], c);
      assert s == s[..|s| - 1] + [s[|s| - 1]];
      r
  }

  /** `os.path.basename` (POSIX): everything after the last `/`. */
  function BaseName(path: string): (r: string)
    ensures '/' !in r
    ensures EndsWith(path, r)
    ensures |r| == |path| || path[|path| - |r| - 1] == '/'
  {
    match LastIndexOf(path, '/')
    case None => path
    case Some(i) => path[i + 1..]
  }

  predicate AllDots(s: string) {
    forall j :: 0 <= j < |s| ==> s[j] == '.'
  }

  /** The root part of `os.path.splitext` applied to a base name: the text
      before the last `.`, unless everything before that dot is dots
      (`.bashrc` and `..x` have no extension). */
  function StripExt(name: string): (r: string)
    ensures StartsWith(name, r)
    ensures r == name || (|r| < |name| && name[|r|] == '.' && '.' !in name[|r| + 1..] && !AllDots(r))
  {
    match LastIndexOf(name, '.')
    case None => name
    case Some(i) => if AllDots(name[..i]) then name else name[..i]
  }

  /** The converse: a name is cut exactly when some `.` in it has a non-dot
      character before it. */
  lemma StripExtCuts(name: string)
    ensures StripExt(name) != name <==> exists i :: 0 <= i < |name| && name[i] == '.' && !AllDots(name[..i])
  {
    if exists i :: 0 <= i < |name| && name[i] == '.' && !AllDots(name[..i]) {
      var i :| 0 <= i < |name| && name[i] == '.' && !AllDots(name[..i]);
      var k := LastIndexOf(name, '.').value;
      assert k >= i;
      var j :| 0 <= j < i && name[..i][j] != '.';
      assert name[..k][j] != '.';
    }
  }

  /** The script name of a source path: `splitext(basename(path))[0]`. */
  function ScriptName(path: string): string {
    StripExt(BaseName(path))
  }

  /** A script name is a prefix of the path's base name, so it holds no `/`. */
  lemma ScriptNameNoSlash(path: string)
    ensures StartsWith(BaseName(path), ScriptName(path))
    ensures '/' !in ScriptName(path)
  {
    var base := BaseName(path);
    var r := StripExt(base);
    assert forall j :: 0 <= j < |r| ==> r[j] == base[j];
  }

  /** The last occurrence of `c` in `x + [c] + y` is the one in the middle when
      `y` has none. */
  lemma {:induction false} LastIndexOfMiddle(x: string, c: char, y: string)
    requires c !in y
    ensures LastIndexOf(x + [c] + y, c) == Some(|x|)
  {
    if y != [] {
      var s := x + [c] + y;
      assert s[..|s| - 1] == x + [c] + y[..|y| - 1];
      assert s[|s| - 1] == y[|y| - 1];
      LastIndexOfMiddle(x, c, y[..|y| - 1]);
    }
  }

  /** A source file `dir/Name.ext` has script name `Name`, whatever the
      directory holds, when `Name` has no dot or slash and `ext` no slash
      or dot. */
  lemma ScriptNameOfPath(dir: string, name: string, ext: string)
    requires |name| > 0 && '/' !in name && '.' !in name
    requires '/' !in ext && '.' !in ext
    ensures ScriptName(dir + "/" + name + "." + ext) == name
  {
    var path := dir + "/" + name + "." + ext;
    assert path == dir + ['/'] + (name + "." + ext);
    assert '/' !in name + "." + ext;
    LastIndexOfMiddle(dir, '/', name + "." + ext);
    var base := BaseName(path);
    assert base == name + ['.'] + ext;
    LastIndexOfMiddle(name, '.', ext);
    assert base[..|name|] == name;
    assert !AllDots(name) by { assert name[0] != '.'; }
  }

  /** `os.path.join(dir, name)` for two POSIX components: an absolute `name`
      replaces `dir`; otherwise a `/` is inserted unless `dir` is empty or
      already ends with one. */
  function Join(dir: string, name: string): string {
    if StartsWith(name, "/") then name
    else if dir == "" || EndsWith(dir, "/") then dir + name
    else dir + "/" + name
  }

  /** A joined path ends with the name joined on, so it keeps the name's extension. */
  lemma JoinKeepsSuffix(dir: string, name: string, suffix: string)
    requires EndsWith(name, suffix)
    ensures EndsWith(Join(dir, name), suffix)
  {
    if !StartsWith(name, "/") {
      var p := if dir == "" || EndsWith(dir, "/") then dir else dir + "/";
      assert Join(dir, name) == p + name;
      EndsWithConcat(p, name, suffix);
    }
  }

  /** Joining a fixed directory is injective on relative names. */
  lemma JoinInjective(dir: string, a: string, b: string)
    requires !StartsWith(a, "/") && !StartsWith(b, "/")
    requires Join(dir, a) == Join(dir, b)
    ensures a == b
  {
    var p := if dir == "" || EndsWith(dir, "/") then dir else dir + "/";
    assert Join(dir, a) == p + a && Join(dir, b) == p + b;
    assert a == (p + a)[|p|..];
  }

  // ---- str(int) and reading an integer back -------------------------------

  predicate IsDigit(c: char) {
    '0' <= c <= '9'
  }

  predicate AllDigits(s: string) {
    forall j :: 0 <= j < |s| ==> IsDigit(s[j])
  }

  function DigitChar(d: nat): (c: char)
    requires d < 10
    ensures IsDigit(c) && c as int - '0' as int == d
  {
    "0123456789"[d]
  }

  /** Decimal rendering of a natural number, without leading zeros. */
  function NatDigits(n: nat): (r: string)
    ensures |r| > 0 && AllDigits(r)
    ensures n == 0 || r[0] != '0'
    decreases n
  {
    if n < 10 then [DigitChar(n)] else NatDigits(n / 10) + [DigitChar(n % 10)]
  }

  /** The number a string of digits denotes. */
  function DigitsValue(s: string): nat {
    if s == [] then 0
    else DigitsValue(s[..|s| - 1]) * 10 + (if IsDigit(s[|s| - 1]) then s[|s| - 1] as int - '0' as int else 0)
  }

  /** Reading a rendered natural number gives it back. */
  lemma {:induction false} NatDigitsRoundTrip(n: nat)
    ensures DigitsValue(NatDigits(n)) == n
    decreases n
  {
    if n >= 10 {
      var s := NatDigits(n);
      assert s[..|s| - 1] == NatDigits(n / 10);
      NatDigitsRoundTrip(n / 10);
    }
  }

  /** Python's `str(n)` for an int: a `-` sign, then the digits of `|n|`. */
  function IntString(n: int): (r: string)
    ensures |r| > 0 && IsDigit(r[|r| - 1])
  {
    if n < 0 then "-" + NatDigits(-n) else NatDigits(n)
  }

  /** The number of digits at the end of `s`. */
  function TrailingDigits(s: string): (k: nat)
    ensures k <= |s|
  {
    if s == [] || !IsDigit(s[|s| - 1]) then 0 else TrailingDigits(s[..|s| - 1]) + 1
  }

  /** Reads an integer written by `IntString` off the end of `s`; gives the
      text before it and its value. */
  function ParseIntSuffix(s: string): Option<(string, int)> {
    var k := TrailingDigits(s);
    if k == 0 then None else Some(Signed(s[..|s| - k], DigitsValue(s[|s| - k..])))
  }

  /** Applies a `-` that directly precedes the digits. */
  function Signed(rest: string, value: nat): (string, int) {
    if |rest| > 0 && rest[|rest| - 1] == '-' then (rest[..|rest| - 1], -(value as int)) else (rest, value)
  }

  /** The digits appended to a text that does not end in a digit are exactly
      the trailing digits. */
  lemma {:induction false} TrailingDigitsAppend(p: string, d: string)
    requires AllDigits(d)
    requires p == [] || !IsDigit(p[|p| - 1])
    ensures TrailingDigits(p + d) == |d|
  {
    if d != [] {
      var s := p + d;
      assert s[..|s| - 1] == p + d[..|d| - 1];
      TrailingDigitsAppend(p, d[..|d| - 1]);
    } else {
      assert p + d == p;
    }
  }

  /** Reads the digits `d` back off `head + d`, where `head` does not end in a
      digit. */
  lemma ParseDigitsAfter(head: string, d: string)
    requires AllDigits(d) && |d| > 0
    requires head == [] || !IsDigit(head[|head| - 1])
    ensures ParseIntSuffix(head + d) == Some(Signed(head, DigitsValue(d)))
  {
    var s := head + d;
    TrailingDigitsAppend(head, d);
    assert s[|s| - |d|..] == d;
    assert s[..|s| - |d|] == head;
  }

  /** Round trip: an integer rendered after any text that does not end in a
      digit or a minus sign is read back, with that text, by ParseIntSuffix. */
  lemma IntStringRoundTrip(p: string, n: int)
    requires p == [] || (!IsDigit(p[|p| - 1]) && p[|p| - 1] != '-')
    ensures ParseIntSuffix(p + IntString(n)) == Some((p, n))
  {
    RoundTripAt(p, n, p + IntString(n));
  }

  /** Helper of `IntStringRoundTrip`: the line is named, which keeps the
      proof small. */
  lemma RoundTripAt(p: string, n: int, s: string)
    requires p == [] || (!IsDigit(p[|p| - 1]) && p[|p| - 1] != '-')
    requires s == p + IntString(n)
    ensures ParseIntSuffix(s) == Some((p, n))
  {
    if n < 0 {
      var d := NatDigits(-n);
      assert IntString(n) == "-" + d;
      assert s == (p + "-") + d;
      SignedRoundTrip(p, n, p + "-", d, s);
    } else {
      var d := NatDigits(n);
      assert s == p + d;
      SignedRoundTrip(p, n, p, d, s);
    }
  }

  /** Helper of `RoundTripAt`: the digits and the text before them. */
  lemma SignedRoundTrip(p: string, n: int, head: string, d: string, s: string)
    requires p == [] || (!IsDigit(p[|p| - 1]) && p[|p| - 1] != '-')
    requires d == NatDigits(if n < 0 then -n else n)
    requires head == if n < 0 then p + "-" else p
    requires s == head + d
    ensures ParseIntSuffix(s) == Some((p, n))
  {
    NatDigitsRoundTrip(if n < 0 then -n else n);
    ParseDigitsAfter(head, d);
    if n < 0 {
      assert head[..|head| - 1] == p;
    }
  }
}
