/** The java.lang.String operations that the editor's string logic calls:
    trim(), split("\\s+"), toLowerCase() (on ASCII), endsWith(), and the
    decimal form of a non-negative int that string concatenation produces. */
module JavaText {

  /** A code point that String.trim() strips from either end: anything up
      to U+0020, which takes in every code point \s matches. */
  function IsTrimSpace(c: char): (b: bool)
    ensures IsRegexSpace(c) ==> b
  {
    c <= ' '
  }

  /** A code point the regular-expression class \s matches (no Unicode flag):
      exactly ' ', '\t', '\n', U+000B, '\f' and '\r'. */
  function IsRegexSpace(c: char): (b: bool)
    ensures b <==> c == ' ' || c == '\t' || c == '\n' || c == '\U{000B}' || c == '\U{000C}' || c == '\r'
  {
    c == ' ' || '\t' <= c <= '\r'
  }

  predicate AllTrimSpace(s: string)
  {
    forall i :: 0 <= i < |s| ==> IsTrimSpace(s[i])
  }

  predicate HasRegexSpace(s: string)
  {
    exists i :: 0 <= i < |s| && IsRegexSpace(s[i])
  }

  predicate StartsWith(s: string, prefix: string)
  {
    |prefix| <= |s| && s[..|prefix|] == prefix
  }

  predicate EndsWith(s: string, suffix: string)
  {
    |suffix| <= |s| && s[|s| - |suffix|..] == suffix
  }

  // ---------------------------------------------------------------- trim()

  /** s without its leading code points up to U+0020. */
  function TrimStart(s: string): (r: string)
    ensures |r| <= |s| && r == s[|s| - |r|..]
    ensures forall i :: 0 <= i < |s| - |r| ==> IsTrimSpace(s[i])
    ensures r == [] || !IsTrimSpace(r[0])
  {
    if s != [] && IsTrimSpace(s[0]) then
      var r := TrimStart(s[1..]);
      assert r == s[|s| - |r|..];
      r
    else s
  }

  /** s without its trailing code points up to U+0020. */
  function TrimEnd(s: string): (r: string)
    ensures |r| <= |s| && r == s[..|r|]
    ensures AllTrimSpace(s[|r|..])
    ensures r == [] || !IsTrimSpace(r[|r| - 1])
  {
    if s != [] && IsTrimSpace(s[|s| - 1]) then
      var r := TrimEnd(s[..|s| - 1]);
      assert s[|r|..] == s[..|s| - 1][|r|..] + [s[|s| - 1]];
      r
    else s
  }

  /** String.trim(): s once every code point up to U+0020 has been taken off
      both ends. The result is empty exactly when s holds nothing else;
      otherwise it starts and ends with a code point above U+0020. */
  function Trim(s: string): (r: string)
    ensures |r| <= |s|
    ensures r == [] <==> AllTrimSpace(s)
    ensures r != [] ==> !IsTrimSpace(r[0]) && !IsTrimSpace(r[|r| - 1])
  {
    var t := TrimStart(s);
    var r := TrimEnd(t);
    assert r == [] ==> AllTrimSpace(s) by {
      if r == [] {
        assert s == s[..|s| - |t|] + t;
        assert t == t[|r|..];
      }
    }
    r
  }

  /** trim() only removes: s is the result with code points up to U+0020
      on either side, `lo` of them in front. */
  lemma TrimIsMiddle(s: string) returns (lo: nat)
    ensures lo + |Trim(s)| <= |s|
    ensures s == s[..lo] + Trim(s) + s[lo + |Trim(s)|..]
    ensures AllTrimSpace(s[..lo]) && AllTrimSpace(s[lo + |Trim(s)|..])
  {
    var t := TrimStart(s);
    var r := TrimEnd(t);
    assert r == Trim(s);
    lo := CutBothEnds(s, t, r);
  }

  /** s minus a front part (leaving t) minus a back part (leaving r) is r
      between those two parts. */
  lemma CutBothEnds(s: string, t: string, r: string) returns (lo: nat)
    requires |t| <= |s| && t == s[|s| - |t|..] && AllTrimSpace(s[..|s| - |t|])
    requires |r| <= |t| && r == t[..|r|] && AllTrimSpace(t[|r|..])
    ensures lo + |r| <= |s|
    ensures s == s[..lo] + r + s[lo + |r|..]
    ensures AllTrimSpace(s[..lo]) && AllTrimSpace(s[lo + |r|..])
  {
    lo := |s| - |t|;
    assert s[lo + |r|..] == t[|r|..];
    assert s == s[..lo] + t;
    assert t == r + t[|r|..];
  }

  lemma {:induction false} TrimStartSkips(p: string, x: string)
    requires AllTrimSpace(p)
    ensures TrimStart(p + x) == TrimStart(x)
  {
    if p == [] {
      assert p + x == x;
    } else {
      assert (p + x)[1..] == p[1..] + x;
      TrimStartSkips(p[1..], x);
    }
  }

  lemma {:induction false} TrimEndSkips(x: string, q: string)
    requires AllTrimSpace(q)
    ensures TrimEnd(x + q) == TrimEnd(x)
  {
    if q == [] {
      assert x + q == x;
    } else {
      assert (x + q)[..|x + q| - 1] == x + q[..|q| - 1];
      TrimEndSkips(x, q[..|q| - 1]);
    }
  }

  lemma {:induction false} TrimStartAppend(x: string, q: string)
    requires AllTrimSpace(q)
    ensures TrimStart(x) == [] ==> TrimStart(x + q) == []
    ensures TrimStart(x) != [] ==> TrimStart(x + q) == TrimStart(x) + q
  {
    if x == [] {
      assert x + q == q;
      assert TrimStart(q) == [];
    } else if IsTrimSpace(x[0]) {
      assert (x + q)[1..] == x[1..] + q;
      TrimStartAppend(x[1..], q);
    } else {
      assert (x + q)[0] == x[0];
    }
  }

  /** Code points up to U+0020 added before or after s do not change what
      trim() returns. */
  lemma TrimPadding(p: string, s: string, q: string)
    requires AllTrimSpace(p) && AllTrimSpace(q)
    ensures Trim(p + s + q) == Trim(s)
  {
    assert p + s + q == p + (s + q);
    TrimStartSkips(p, s + q);
    TrimStartAppend(s, q);
    if TrimStart(s) != [] {
      TrimEndSkips(TrimStart(s), q);
    }
  }

  // ------------------------------------------------------- split("\\s+")

  /** s without its leading run of \s code points. */
  function DropRegexSpace(s: string): (r: string)
    ensures |r| <= |s| && r == s[|s| - |r|..]
    ensures forall i :: 0 <= i < |s| - |r| ==> IsRegexSpace(s[i])
    ensures r == [] || !IsRegexSpace(r[0])
  {
    if s != [] && IsRegexSpace(s[0]) then DropRegexSpace(s[1..]) else s
  }

  /** The pieces of s between its maximal runs of \s code points, in order,
      with the empty piece before a leading run and after a trailing run:
      what the matcher loop of String.split collects before the trailing
      empty pieces are discarded. No piece holds a \s code point. */
  function Fields(s: string): (r: seq<string>)
    ensures |r| >= 1
    ensures forall k, i :: 0 <= k < |r| && 0 <= i < |r[k]| ==> !IsRegexSpace(r[k][i])
    decreases |s|
  {
    if s == [] then [""]
    else if IsRegexSpace(s[0]) then [""] + Fields(DropRegexSpace(s[1..]))
    else
      var f := Fields(s[1..]);
      assert forall i :: 0 <= i < |f[0]| ==> !IsRegexSpace(f[0][i]);
      [[s[0]] + f[0]] + f[1..]
  }

  /** A non-empty run of \s code points. */
  predicate IsRegexSpaceRun(g: string)
  {
    g != [] && forall i :: 0 <= i < |g| ==> IsRegexSpace(g[i])
  }

  /** The maximal runs of \s code points in s, in order: where Fields cuts. */
  function Separators(s: string): (r: seq<string>)
    decreases |s|
  {
    if s == [] then []
    else if IsRegexSpace(s[0]) then
      var d := DropRegexSpace(s[1..]);
      [s[..|s| - |d|]] + Separators(d)
    else Separators(s[1..])
  }

  /** fs[0] + gs[0] + fs[1] + ... + gs[n - 1] + fs[n]. */
  function Interleave(fs: seq<string>, gs: seq<string>): string
    requires |fs| == |gs| + 1
    decreases |gs|
  {
    if gs == [] then fs[0] else fs[0] + gs[0] + Interleave(fs[1..], gs[1..])
  }

  /** Gluing more in front of the first piece glues it in front of the whole. */
  lemma InterleaveFront(c: string, fs: seq<string>, gs: seq<string>)
    requires |fs| == |gs| + 1
    ensures Interleave([c + fs[0]] + fs[1..], gs) == c + Interleave(fs, gs)
  {
    var gl := [c + fs[0]] + fs[1..];
    if gs != [] {
      assert gl[1..] == fs[1..];
      assert c + fs[0] + gs[0] + Interleave(fs[1..], gs[1..])
          == c + (fs[0] + gs[0] + Interleave(fs[1..], gs[1..]));
    }
  }

  /** s is exactly its pieces with its separators between them. */
  predicate Rebuilds(s: string)
  {
    |Fields(s)| == |Separators(s)| + 1 && Interleave(Fields(s), Separators(s)) == s
  }

  /** Fields loses nothing: s is its pieces with its maximal \s runs put
      back between them, in order. */
  lemma {:induction false} FieldsRebuild(s: string)
    ensures |Fields(s)| == |Separators(s)| + 1
    ensures Interleave(Fields(s), Separators(s)) == s
    decreases |s|
  {
    if s == [] {
    } else if IsRegexSpace(s[0]) {
      FieldsRebuild(DropRegexSpace(s[1..]));
      RebuildsAfterSeparator(s);
    } else {
      FieldsRebuild(s[1..]);
      RebuildsAfterPiece(s);
    }
  }

  /** The step of FieldsRebuild for a string that starts with \s. */
  lemma RebuildsAfterSeparator(s: string)
    requires s != [] && IsRegexSpace(s[0])
    requires Rebuilds(DropRegexSpace(s[1..]))
    ensures Rebuilds(s)
  {
    var d := DropRegexSpace(s[1..]);
    SeparatorSplit(s);
    InterleaveAfterGap(s[..|s| - |d|], Fields(d), Separators(d));
  }

  /** How s, its pieces and its separators split after a leading \s run. */
  lemma SeparatorSplit(s: string)
    requires s != [] && IsRegexSpace(s[0])
    ensures var d := DropRegexSpace(s[1..]);
      && s == s[..|s| - |d|] + d
      && Fields(s) == [""] + Fields(d)
      && Separators(s) == [s[..|s| - |d|]] + Separators(d)
  {
    var d := DropRegexSpace(s[1..]);
    SplitAtSuffix(s, d);
  }

  /** A string is its prefix followed by the suffix that remains. */
  lemma SplitAtSuffix(s: string, d: string)
    requires |d| <= |s| && d == s[|s| - |d|..]
    ensures s == s[..|s| - |d|] + d
  {
  }

  /** Interleaving after an empty first piece starts with the first separator. */
  lemma InterleaveAfterGap(g: string, fs: seq<string>, gs: seq<string>)
    requires |fs| == |gs| + 1
    ensures Interleave([""] + fs, [g] + gs) == g + Interleave(fs, gs)
  {
    assert ([""] + fs)[1..] == fs;
    assert ([g] + gs)[1..] == gs;
    assert "" + g == g;
  }

  /** The step of FieldsRebuild for a string that starts with another code point. */
  lemma RebuildsAfterPiece(s: string)
    requires s != [] && !IsRegexSpace(s[0])
    requires Rebuilds(s[1..])
    ensures Rebuilds(s)
  {
    var f := Fields(s[1..]);
    assert Fields(s) == [[s[0]] + f[0]] + f[1..];
    assert Separators(s) == Separators(s[1..]);
    InterleaveFront([s[0]], f, Separators(s[1..]));
    assert [s[0]] + s[1..] == s;
  }

  /** Every separator is a non-empty run of \s. */
  lemma {:induction false} SeparatorsAreRuns(s: string)
    ensures forall k :: 0 <= k < |Separators(s)| ==> IsRegexSpaceRun(Separators(s)[k])
    decreases |s|
  {
    if s == [] {
    } else if IsRegexSpace(s[0]) {
      var d := DropRegexSpace(s[1..]);
      var g := s[..|s| - |d|];
      SeparatorsAreRuns(d);
      assert IsRegexSpaceRun(g) by {
        forall i | 0 < i < |g| ensures IsRegexSpace(g[i]) {
          assert g[i] == s[1..][i - 1];
        }
      }
      assert Separators(s) == [g] + Separators(d);
    } else {
      SeparatorsAreRuns(s[1..]);
    }
  }

  /** Every piece but the first and the last is non-empty, and the first is
      non-empty unless s starts with \s. As no piece holds \s (the contract
      of Fields), no separator can be extended: each is a maximal run. */
  lemma {:induction false} FieldsInteriorNonEmpty(s: string)
    ensures forall k :: 0 < k < |Fields(s)| - 1 ==> Fields(s)[k] != []
    ensures s != [] && !IsRegexSpace(s[0]) ==> Fields(s)[0] != []
    decreases |s|
  {
    if s == [] {
    } else if IsRegexSpace(s[0]) {
      var d := DropRegexSpace(s[1..]);
      FieldsInteriorNonEmpty(d);
      assert Fields(s) == [""] + Fields(d);
      assert |Fields(d)| > 1 ==> d != [];
    } else {
      var f := Fields(s[1..]);
      FieldsInteriorNonEmpty(s[1..]);
      assert Fields(s) == [[s[0]] + f[0]] + f[1..];
    }
  }

  /** A string without \s is a single piece. */
  lemma {:induction false} FieldsOfSpaceless(s: string)
    requires !HasRegexSpace(s)
    ensures Fields(s) == [s]
  {
    if s != [] {
      assert !HasRegexSpace(s[1..]) by {
        forall i | 0 <= i < |s| - 1 ensures !IsRegexSpace(s[1..][i]) {
          assert s[1..][i] == s[i + 1];
        }
      }
      FieldsOfSpaceless(s[1..]);
      assert [s[0]] + s[1..] == s;
    }
  }

  /** fs without its trailing empty strings. */
  function DropTrailingEmpty(fs: seq<string>): (r: seq<string>)
    ensures |r| <= |fs| && r == fs[..|r|]
    ensures forall k :: |r| <= k < |fs| ==> fs[k] == []
    ensures r == [] || r[|r| - 1] != []
  {
    if fs != [] && fs[|fs| - 1] == [] then DropTrailingEmpty(fs[..|fs| - 1]) else fs
  }

  /** String.split("\\s+") with the default limit 0: the whole string when the
      pattern never matches, and otherwise the pieces between matches with
      the trailing empty ones removed. The result is Fields(s) up to some
      point, and everything after that point is empty: so its pieces are the
      pieces of s between maximal \s runs (FieldsRebuild). */
  function SplitOnRegexSpace(s: string): (r: seq<string>)
    ensures |r| <= |Fields(s)| && r == Fields(s)[..|r|]
    ensures forall k :: |r| <= k < |Fields(s)| ==> Fields(s)[k] == []
    ensures forall k, i :: 0 <= k < |r| && 0 <= i < |r[k]| ==> !IsRegexSpace(r[k][i])
    ensures !HasRegexSpace(s) ==> r == [s]
    ensures HasRegexSpace(s) ==> r == [] || r[|r| - 1] != []
  {
    if !HasRegexSpace(s) then
      FieldsOfSpaceless(s);
      [s]
    else DropTrailingEmpty(Fields(s))
  }

  // ---------------------------------------------- toLowerCase(), on ASCII

  /** Character.toLowerCase restricted to ASCII: only 'A'..'Z' change. */
  function LowerAscii(c: char): (r: char)
    ensures 'A' <= c <= 'Z' ==> 'a' <= r <= 'z' && r as int - c as int == 32
    ensures !('A' <= c <= 'Z') ==> r == c
  {
    if 'A' <= c <= 'Z' then (c as int + 32) as char else c
  }

  /** s with each code point lower-cased; the length never changes. */
  function ToLowerAscii(s: string): (r: string)
    ensures |r| == |s| && forall i :: 0 <= i < |s| ==> r[i] == LowerAscii(s[i])
  {
    if s == [] then [] else [LowerAscii(s[0])] + ToLowerAscii(s[1..])
  }

  // -------------------------------------------------- decimal notation

  predicate IsDigit(c: char)
  {
    '0' <= c <= '9'
  }

  predicate AllDigits(s: string)
  {
    forall i :: 0 <= i < |s| ==> IsDigit(s[i])
  }

  function DigitChar(d: nat): (c: char)
    requires d < 10
    ensures IsDigit(c) && c as int - '0' as int == d
  {
    ('0' as int + d) as char
  }

  /** Integer.toString of a non-negative value, as `"..." + n` produces it:
      at least one digit, and no leading zero unless n is zero. */
  function DecimalString(n: nat): (r: string)
    ensures r != [] && AllDigits(r)
    ensures r[0] == '0' ==> n == 0 && r == "0"
  {
    if n < 10 then [DigitChar(n)] else DecimalString(n / 10) + [DigitChar(n % 10)]
  }

  /** The decimal form of a count below 100. */
  lemma SmallDecimal(n: nat)
    requires n < 100
    ensures n < 10 ==> DecimalString(n) == [DigitChar(n)]
    ensures n >= 10 ==> DecimalString(n) == [DigitChar(n / 10), DigitChar(n % 10)]
  {
  }

  /** The number a string of decimal digits denotes. */
  function DigitsValue(s: string): nat
    requires AllDigits(s)
  {
    if s == [] then 0 else DigitsValue(s[..|s| - 1]) * 10 + (s[|s| - 1] as int - '0' as int)
  }

  /** Reading back the decimal form of n gives n. */
  lemma {:induction false} DecimalRoundTrip(n: nat)
    ensures DigitsValue(DecimalString(n)) == n
  {
    var r := DecimalString(n);
    if n >= 10 {
      DecimalRoundTrip(n / 10);
      assert r[..|r| - 1] == DecimalString(n / 10);
    }
  }

  /** The longest prefix of s made of decimal digits. */
  function LeadingDigits(s: string): (r: string)
    ensures |r| <= |s| && r == s[..|r|] && AllDigits(r)
    ensures |r| == |s| || !IsDigit(s[|r|])
  {
    if s != [] && IsDigit(s[0]) then [s[0]] + LeadingDigits(s[1..]) else []
  }

  /** A run of digits followed by a non-digit (or by nothing) is its own leading digits. */
  lemma {:induction false} LeadingDigitsOf(d: string, rest: string)
    requires AllDigits(d)
    requires rest == [] || !IsDigit(rest[0])
    ensures LeadingDigits(d + rest) == d
  {
    if d != [] {
      assert (d + rest)[1..] == d[1..] + rest;
      LeadingDigitsOf(d[1..], rest);
    } else {
      assert d + rest == rest;
    }
  }
}
