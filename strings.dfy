/** The parts of Python's `str` that the modelled code relies on. */
module Strings {
  import opened Wrappers

  /** Python's `str.isspace()` for a single character. */
  predicate IsSpace(c: char) {
    var n := c as int;
    n == 32 || 9 <= n <= 13 || 28 <= n <= 31 || n == 0x85 || n == 0xA0 || n == 0x1680
    || 0x2000 <= n <= 0x200A || n == 0x2028 || n == 0x2029 || n == 0x202F || n == 0x205F
    || n == 0x3000
  }

  /** Hiragana (U+3040–U+309F), katakana (U+30A0–U+30FF) or a CJK ideograph
      (U+4E00–U+9FAF), the ranges the code treats as Japanese. */
  predicate IsJapaneseChar(c: char) {
    var n := c as int;
    0x3040 <= n <= 0x309F || 0x30A0 <= n <= 0x30FF || 0x4E00 <= n <= 0x9FAF
  }

  predicate IsDigitChar(c: char) {
    '0' <= c <= '9'
  }

  predicate AllSpace(s: string) {
    forall i :: 0 <= i < |s| ==> IsSpace(s[i])
  }

  predicate AllDigits(s: string) {
    forall i :: 0 <= i < |s| ==> IsDigitChar(s[i])
  }

  /** The first index at or after `i` whose character is not whitespace, or `|s|`. */
  function SpaceEnd(s: string, i: nat): (k: nat)
    requires i <= |s|
    ensures i <= k <= |s| && (k == |s| || !IsSpace(s[k]))
    ensures forall j :: i <= j < k ==> IsSpace(s[j])
    decreases |s| - i
  {
    if i == |s| || !IsSpace(s[i]) then i else SpaceEnd(s, i + 1)
  }

  /** The last index at or before `j` that follows a character that is not whitespace, or 0. */
  function SpaceStart(s: string, j: nat): (k: nat)
    requires j <= |s|
    ensures k <= j && (k == 0 || !IsSpace(s[k - 1]))
    ensures forall m :: k <= m < j ==> IsSpace(s[m])
  {
    if j == 0 || !IsSpace(s[j - 1]) then j else SpaceStart(s, j - 1)
  }

  /** `s.lstrip()` */
  function LStrip(s: string): (r: string)
    ensures |r| <= |s| && r == s[|s| - |r|..]
    ensures AllSpace(s[..|s| - |r|])
    ensures r == [] || !IsSpace(r[0])
  {
    var k := SpaceEnd(s, 0);
    assert AllSpace(s[..k]) by {
      forall j | 0 <= j < k ensures IsSpace(s[..k][j]) {
        assert s[..k][j] == s[j];
      }
    }
    s[k..]
  }

  /** `s.rstrip()` */
  function RStrip(s: string): (r: string)
    ensures |r| <= |s| && r == s[..|r|]
    ensures AllSpace(s[|r|..])
    ensures r == [] || !IsSpace(r[|r| - 1])
  {
    var k := SpaceStart(s, |s|);
    assert AllSpace(s[k..]) by {
      forall j | 0 <= j < |s| - k ensures IsSpace(s[k..][j]) {
        assert s[k..][j] == s[k + j];
      }
    }
    s[..k]
  }

  /** `s.strip()` */
  function Strip(s: string): (r: string)
    ensures |r| <= |s|
    ensures r == [] || (!IsSpace(r[0]) && !IsSpace(r[|r| - 1]))
    ensures r == [] <==> AllSpace(s)
    ensures StripStart(s) + |r| <= |s| && r == s[StripStart(s)..StripStart(s) + |r|]
  {
    var l := LStrip(s);
    var r := RStrip(l);
    StripParts(s, l, r);
    r
  }

  /** The facts `Strip` promises, for `rstrip` after `lstrip`. */
  lemma StripParts(s: string, l: string, r: string)
    requires l == LStrip(s) && r == RStrip(l)
    ensures r == [] || (!IsSpace(r[0]) && !IsSpace(r[|r| - 1]))
    ensures r == [] <==> AllSpace(s)
    ensures |s| - |l| + |r| <= |s| && r == s[|s| - |l|..|s| - |l| + |r|]
  {
    var k := |s| - |l|;
    PrefixOfSuffix(s, l, r);
    if r != [] {
      assert r[0] == l[0] == s[k];
    } else {
      assert s[..|s|] == s;
    }
  }

  /** `lstrip()` cuts whitespace off the front: the text is that cut followed by the rest. */
  lemma LStripCut(s: string)
    ensures var l := LStrip(s); s == s[..|s| - |l|] + l && AllSpace(s[..|s| - |l|])
  {
    var k := |s| - |LStrip(s)|;
    assert s[..k] + s[k..] == s;
  }

  /** `rstrip()` cuts whitespace off the back: the text is the rest followed by that cut. */
  lemma RStripCut(s: string)
    ensures var r := RStrip(s); s == r + s[|r|..] && AllSpace(s[|r|..])
  {
    var k := |RStrip(s)|;
    assert s[..k] + s[k..] == s;
  }

  /** A text with no whitespace at either end is left alone by `strip()`. */
  lemma StripUnpadded(s: string)
    requires s == [] || (!IsSpace(s[0]) && !IsSpace(s[|s| - 1]))
    ensures LStrip(s) == s && RStrip(s) == s && Strip(s) == s
  {
    if s != [] {
      assert SpaceEnd(s, 0) == 0;
      assert s[0..] == s;
      assert SpaceStart(s, |s|) == |s|;
      assert s[..|s|] == s;
    }
  }

  /** A prefix of a suffix is a slice. */
  lemma PrefixOfSuffix(s: string, l: string, r: string)
    requires |l| <= |s| && l == s[|s| - |l|..]
    requires |r| <= |l| && r == l[..|r|]
    ensures r == s[|s| - |l|..|s| - |l| + |r|]
  {
    var k := |s| - |l|;
    forall i | 0 <= i < |r| ensures r[i] == s[k + i] {
      assert r[i] == l[i];
    }
  }

  /** Where the text kept by `strip()` starts. */
  function StripStart(s: string): (k: nat)
    ensures k <= |s|
  {
    |s| - |LStrip(s)|
  }

  predicate StartsWith(s: string, prefix: string) {
    |prefix| <= |s| && s[..|prefix|] == prefix
  }

  predicate EndsWith(s: string, suffix: string) {
    |suffix| <= |s| && s[|s| - |suffix|..] == suffix
  }

  predicate OccursAt(s: string, sub: string, i: int) {
    0 <= i <= |s| - |sub| && s[i..i + |sub|] == sub
  }

  /** `sub in s` */
  predicate Contains(s: string, sub: string) {
    exists i | 0 <= i <= |s| :: OccursAt(s, sub, i)
  }

  /** `s.find(sub)`: the first index at which `sub` occurs, or None. */
  function Find(s: string, sub: string): (r: Option<nat>)
    ensures r.Some? ==> OccursAt(s, sub, r.value)
    ensures r.Some? ==> forall j :: 0 <= j < r.value ==> !OccursAt(s, sub, j)
    ensures r.None? <==> !Contains(s, sub)
  {
    FindFrom(s, sub, 0)
  }

  function FindFrom(s: string, sub: string, from: nat): (r: Option<nat>)
    requires forall j :: 0 <= j < from ==> !OccursAt(s, sub, j)
    ensures r.Some? ==> from <= r.value && OccursAt(s, sub, r.value)
    ensures r.Some? ==> forall j :: 0 <= j < r.value ==> !OccursAt(s, sub, j)
    ensures r.None? <==> !Contains(s, sub)
    decreases |s| + 1 - from
  {
    if from + |sub| > |s| then None
    else if s[from..from + |sub|] == sub then assert OccursAt(s, sub, from); Some(from)
    else FindFrom(s, sub, from + 1)
  }

  /** ASCII `c.lower()`; other characters are returned unchanged. */
  function LowerChar(c: char): char {
    if 'A' <= c <= 'Z' then (c as int + 32) as char else c
  }

  /** `s.lower()` restricted to ASCII letters. */
  function Lower(s: string): (r: string)
    ensures |r| == |s|
    ensures forall i :: 0 <= i < |s| ==> r[i] == LowerChar(s[i])
  {
    seq(|s|, i requires 0 <= i < |s| => LowerChar(s[i]))
  }

  function DigitChar(d: nat): (c: char)
    requires d < 10
    ensures IsDigitChar(c) && c as int - '0' as int == d
  {
    (d + '0' as int) as char
  }

  /** `str(n)` for a natural number. */
  function NatToString(n: nat): (r: string)
    ensures |r| >= 1 && AllDigits(r)
    ensures n >= 10 ==> r[0] != '0'
  {
    if n < 10 then [DigitChar(n)] else NatToString(n / 10) + [DigitChar(n % 10)]
  }

  /** `str(i)` for any integer. */
  function IntToString(i: int): (r: string)
    ensures |r| >= 1
    ensures (r[0] == '-') <==> i < 0
  {
    if i < 0 then "-" + NatToString(-i) else NatToString(i)
  }

  /** The value of a string of decimal digits (leading zeros allowed). */
  function DigitsValue(s: string): nat
    requires AllDigits(s)
  {
    if s == [] then 0 else DigitsValue(s[..|s| - 1]) * 10 + (s[|s| - 1] as int - '0' as int)
  }

  function Zeros(k: nat): (r: string)
    ensures |r| == k && AllDigits(r)
    ensures forall i :: 0 <= i < k ==> r[i] == '0'
  {
    if k == 0 then [] else "0" + Zeros(k - 1)
  }

  /** Python's `f"{i:04d}"`: zero-filled to width 4, the sign counted in the width. */
  function PadInt4(i: int): (r: string)
    ensures |r| >= 4
    ensures (r[0] == '-') <==> i < 0
  {
    var digits := NatToString(if i < 0 then -i else i);
    var width := if i < 0 then 3 else 4;
    var padded := if |digits| < width then Zeros(width - |digits|) + digits else digits;
    if i < 0 then "-" + padded else padded
  }

  lemma {:induction false} NatToStringValue(n: nat)
    ensures DigitsValue(NatToString(n)) == n
  {
    if n >= 10 {
      NatToStringValue(n / 10);
      var s := NatToString(n);
      assert s[..|s| - 1] == NatToString(n / 10);
    }
  }

  lemma {:induction false} LeadingZerosValue(k: nat, s: string)
    requires AllDigits(s)
    ensures AllDigits(Zeros(k) + s)
    ensures DigitsValue(Zeros(k) + s) == DigitsValue(s)
  {
    var z := Zeros(k) + s;
    if s == [] {
      assert z == Zeros(k);
      ZerosValue(k);
    } else {
      assert z[..|z| - 1] == Zeros(k) + s[..|s| - 1];
      LeadingZerosValue(k, s[..|s| - 1]);
    }
  }

  lemma {:induction false} ZerosValue(k: nat)
    ensures DigitsValue(Zeros(k)) == 0
  {
    if k > 0 {
      var z := Zeros(k);
      assert z[..k - 1] == Zeros(k - 1) by {
        assert forall i :: 0 <= i < k - 1 ==> z[i] == '0';
      }
      ZerosValue(k - 1);
    }
  }

  /** Reads back what PadInt4 wrote. */
  function ParsePadded(s: string): int
    requires |s| >= 1
    requires s[0] == '-' ==> AllDigits(s[1..])
    requires s[0] != '-' ==> AllDigits(s)
  {
    if s[0] == '-' then 0 - DigitsValue(s[1..]) else DigitsValue(s)
  }

  lemma PadInt4RoundTrip(i: int)
    ensures var r := PadInt4(i);
      (r[0] == '-' ==> AllDigits(r[1..])) && (r[0] != '-' ==> AllDigits(r)) && ParsePadded(r) == i
  {
    var n := if i < 0 then -i else i;
    var digits := NatToString(n);
    var width := if i < 0 then 3 else 4;
    NatToStringValue(n);
    var padded := if |digits| < width then Zeros(width - |digits|) + digits else digits;
    if |digits| < width {
      LeadingZerosValue(width - |digits|, digits);
    }
    var r := PadInt4(i);
    if i < 0 {
      assert r[1..] == padded;
    }
  }

  /** Distinct indices never share a `{:04d}` rendering. */
  lemma PadInt4Injective(i: int, j: int)
    requires i != j
    ensures PadInt4(i) != PadInt4(j)
  {
    PadInt4RoundTrip(i);
    PadInt4RoundTrip(j);
  }

  /** `sep.join(parts)` */
  function Join(parts: seq<string>, sep: string): (r: string)
    ensures parts == [] ==> r == []
    ensures |parts| == 1 ==> r == parts[0]
  {
    if parts == [] then []
    else if |parts| == 1 then parts[0]
    else parts[0] + sep + Join(parts[1..], sep)
  }

  /** `s.split(sep)` for a one-character separator. */
  function Split(s: string, sep: char): (r: seq<string>)
    ensures |r| >= 1
    ensures forall k :: 0 <= k < |r| ==> sep !in r[k]
    ensures Join(r, [sep]) == s
  {
    if sep !in s then [s]
    else
      var i := IndexOfChar(s, sep);
      var rest := Split(s[i + 1..], sep);
      assert s == s[..i] + [sep] + s[i + 1..];
      [s[..i]] + rest
  }

  function IndexOfChar(s: string, c: char): (i: nat)
    requires c in s
    ensures i < |s| && s[i] == c && c !in s[..i]
  {
    if s[0] == c then 0 else 1 + IndexOfChar(s[1..], c)
  }

  /** `s.rfind(c)` for one character: its last position, or None. */
  function LastIndexOfChar(s: string, c: char): (r: Option<nat>)
    ensures r.Some? ==> r.value < |s| && s[r.value] == c && c !in s[r.value + 1..]
    ensures r.None? <==> c !in s
  {
    if s == [] then None
    else if s[|s| - 1] == c then Some(|s| - 1)
    else
      var r := LastIndexOfChar(s[..|s| - 1], c);
      assert s == s[..|s| - 1] + [s[|s| - 1]];
      if r.Some? then
        assert s[r.value + 1..] == s[..|s| - 1][r.value + 1..] + [s[|s| - 1]];
        r
      else r
  }

  /** The last occurrence is the one with no occurrence after it. */
  lemma LastIndexOfCharAt(s: string, c: char, i: nat)
    requires i < |s| && s[i] == c && c !in s[i + 1..]
    ensures LastIndexOfChar(s, c) == Some(i)
  {
  }

  /** `"".join(parts)` */
  function Concat(parts: seq<string>): (r: string)
    ensures |parts| == 0 ==> r == []
  {
    if parts == [] then [] else parts[0] + Concat(parts[1..])
  }

  /** `a`, one separator, then `b`: each piece is read back from its position. */
  lemma JoinedParts(a: string, c: char, b: string)
    ensures var s := a + [c] + b;
      |s| == |a| + 1 + |b| && s[|a|] == c && s[..|a|] == a && s[|a|..] == [c] + b && s[|a| + 1..] == b
  {
    var s := a + [c] + b;
    assert s[..|a|] == a;
    assert s[|a| + 1..] == b;
  }

  /** The characters of `a`, one separator and `b` are those of the pieces. */
  lemma CharOfJoin(a: string, c: char, b: string, d: char)
    ensures d in a + [c] + b <==> d in a || d == c || d in b
  {
  }

  /** The final component of `dir/name` is `name` when `name` holds no slash. */
  lemma LastComponent(dir: string, name: string)
    requires '/' !in name
    ensures FinalComponent(dir + "/" + name) == name
  {
    JoinedParts(dir, '/', name);
    LastIndexOfCharAt(dir + "/" + name, '/', |dir|);
  }

  /** The suffix of `stem.ext` is `.ext` when neither part holds a dot or a slash and
      both are non-empty. */
  lemma SuffixOfStem(stem: string, ext: string)
    requires stem != [] && ext != []
    requires '.' !in stem && '/' !in stem && '.' !in ext && '/' !in ext
    ensures Suffix(stem + "." + ext) == "." + ext
  {
    var name := stem + "." + ext;
    JoinedParts(stem, '.', ext);
    CharOfJoin(stem, '.', ext, '/');
    assert FinalComponent(name) == name;
    LastIndexOfCharAt(name, '.', |stem|);
  }

  /** The final component of a path. */
  function FinalComponent(path: string): (name: string)
    ensures '/' !in name
  {
    match LastIndexOfChar(path, '/')
    case None => path
    case Some(i) => path[i + 1..]
  }

  /** `PurePath.suffix`: from the last dot of the final component, unless that dot opens or
      closes the name. */
  function Suffix(path: string): (r: string)
    ensures r == [] || r[0] == '.'
    ensures r != [] ==> |r| >= 2 && '.' !in r[1..]
  {
    var name := FinalComponent(path);
    match LastIndexOfChar(name, '.')
    case None => ""
    case Some(i) => if 0 < i < |name| - 1 then name[i..] else ""
  }
}
