/**
 * The string primitives the source borrows from JavaScript: the `\s` class and `trim`,
 * `toLowerCase` (on ASCII letters), `includes`, `split(/\s+/)` and number-to-string.
 */
module Text {

  /** JavaScript's white-space set, shared by `\s` and `String.prototype.trim`. */
  predicate IsSpace(c: char) {
    || c == ' ' || c == '\t' || c == '\n' || c == '\U{000B}' || c == '\U{000C}' || c == '\r'
    || c == '\U{00A0}' || c == '\U{1680}' || ('\U{2000}' <= c <= '\U{200A}')
    || c == '\U{2028}' || c == '\U{2029}' || c == '\U{202F}' || c == '\U{205F}'
    || c == '\U{3000}' || c == '\U{FEFF}'
  }

  /** Every character is white space (the empty string included). */
  predicate IsBlank(s: string) {
    forall i :: 0 <= i < |s| ==> IsSpace(s[i])
  }

  /** No character is white space. */
  predicate NoSpace(s: string) {
    forall i :: 0 <= i < |s| ==> !IsSpace(s[i])
  }

  // ---------------------------------------------------------------- trim

  /** The length of the white-space run `s` starts with. */
  function LeadingSpaces(s: string): (n: nat)
    ensures n <= |s|
    ensures forall i :: 0 <= i < n ==> IsSpace(s[i])
    ensures n < |s| ==> !IsSpace(s[n])
    decreases |s|
  {
    if s != [] && IsSpace(s[0]) then 1 + LeadingSpaces(s[1..]) else 0
  }

  /** Drops leading white space: the result is the suffix that starts at the first non-space. */
  function TrimStart(s: string): (r: string)
    ensures |r| <= |s| && r == s[|s| - |r|..]
    ensures IsBlank(s[..|s| - |r|])
    ensures r == [] || !IsSpace(r[0])
    ensures s != [] && IsSpace(s[0]) ==> |r| < |s|
  {
    var n := LeadingSpaces(s);
    assert forall i :: 0 <= i < n ==> s[..n][i] == s[i];
    s[n..]
  }

  /** Drops trailing white space: the result is the prefix that ends at the last non-space. */
  function TrimEnd(s: string): (r: string)
    ensures |r| <= |s| && r == s[..|r|]
    ensures IsBlank(s[|r|..])
    ensures r == [] || !IsSpace(r[|r| - 1])
    decreases |s|
  {
    if s != [] && IsSpace(s[|s| - 1]) then
      var init := s[..|s| - 1];
      var r := TrimEnd(init);
      assert s[|r|..] == init[|r|..] + [s[|s| - 1]];
      assert init[..|r|] == s[..|r|];
      r
    else s
  }

  /** `String.prototype.trim`: the result is empty or starts and ends with a non-space character. */
  function Trim(s: string): (r: string)
    ensures |r| <= |s|
    ensures r == [] || (!IsSpace(r[0]) && !IsSpace(r[|r| - 1]))
  {
    var t := TrimStart(s);
    var r := TrimEnd(t);
    assert r == [] || r[0] == t[0];
    r
  }

  /** `r` is the stretch of `s` starting at `a`, with only white space before and after it. */
  predicate MiddleAt(s: string, a: int, r: string) {
    0 <= a && a + |r| <= |s| && r == s[a..a + |r|] && IsBlank(s[..a]) && IsBlank(s[a + |r|..])
  }

  /**
   * `trim` cuts only at the ends: the result is the stretch of the input between a blank
   * prefix and a blank suffix, everything in between kept.
   */
  lemma TrimKeepsMiddle(s: string)
    ensures exists a :: MiddleAt(s, a, Trim(s))
  {
    var t := TrimStart(s);
    var r := TrimEnd(t);
    var a := |s| - |t|;
    assert r == Trim(s);
    assert t == s[a..];
    assert r == t[..|r|];
    assert t[..|r|] == s[a..a + |r|];
    assert t[|r|..] == s[a + |r|..];
    assert MiddleAt(s, a, r);
  }

  /** A string that starts with a non-space keeps at least that character under `TrimEnd`. */
  lemma {:induction false} TrimEndKeepsFirst(t: string)
    requires t != [] && !IsSpace(t[0])
    ensures TrimEnd(t) != []
    decreases |t|
  {
    if IsSpace(t[|t| - 1]) {
      TrimEndKeepsFirst(t[..|t| - 1]);
    }
  }

  /** `!s.trim()` holds exactly for blank strings. */
  lemma TrimEmptyIffBlank(s: string)
    ensures Trim(s) == [] <==> IsBlank(s)
  {
    var t := TrimStart(s);
    if t == [] {
      assert s[..|s|] == s;
    } else {
      TrimEndKeepsFirst(t);
      assert s[|s| - |t|] == t[0];
    }
  }

  /** The guard `!s.trim()` as a statement: whether the text trims to nothing. */
  method TrimsToEmpty(s: string) returns (empty: bool)
    ensures empty <==> IsBlank(s)
  {
    TrimEmptyIffBlank(s);
    empty := Trim(s) == [];
  }

  // ---------------------------------------------------------------- case

  /** `toLowerCase` restricted to ASCII letters. */
  function LowerChar(c: char): char {
    if 'A' <= c <= 'Z' then (c as int - 'A' as int + 'a' as int) as char else c
  }

  /** Capitals become small letters; every other character is kept. */
  function Lower(s: string): (r: string)
    ensures |r| == |s|
    ensures forall i :: 0 <= i < |s| ==> !('A' <= r[i] <= 'Z')
    ensures forall i :: 0 <= i < |s| && 'A' <= s[i] <= 'Z' ==> r[i] as int == s[i] as int + 32
    ensures forall i :: 0 <= i < |s| && !('A' <= s[i] <= 'Z') ==> r[i] == s[i]
  {
    seq(|s|, i requires 0 <= i < |s| => LowerChar(s[i]))
  }

  // ---------------------------------------------------------------- includes

  predicate StartsWith(s: string, prefix: string) {
    |prefix| <= |s| && s[..|prefix|] == prefix
  }

  /** `needle` occurs in `hay` starting at index `i`. */
  predicate OccursAt(hay: string, needle: string, i: int) {
    0 <= i <= |hay| - |needle| && hay[i..i + |needle|] == needle
  }

  /** `String.prototype.includes`: scanning start positions left to right. */
  predicate Contains(hay: string, needle: string)
    ensures Contains(hay, needle) ==> |needle| <= |hay|
    ensures needle == [] ==> Contains(hay, needle)
    decreases |hay|
  {
    StartsWith(hay, needle) || (hay != [] && Contains(hay[1..], needle))
  }

  /** The scanning definition agrees with "occurs at some position". */
  lemma {:induction false} ContainsIffOccurs(hay: string, needle: string)
    ensures Contains(hay, needle) <==> exists i :: OccursAt(hay, needle, i)
    decreases |hay|
  {
    if StartsWith(hay, needle) {
      assert OccursAt(hay, needle, 0);
    } else if hay != [] {
      ContainsIffOccurs(hay[1..], needle);
      forall i | OccursAt(hay[1..], needle, i) ensures OccursAt(hay, needle, i + 1) {
        assert hay[i + 1..i + 1 + |needle|] == hay[1..][i..i + |needle|];
      }
      forall i | OccursAt(hay, needle, i) && i > 0 ensures OccursAt(hay[1..], needle, i - 1) {
        assert hay[1..][i - 1..i - 1 + |needle|] == hay[i..i + |needle|];
      }
      assert OccursAt(hay, needle, 0) ==> StartsWith(hay, needle);
    }
  }

  // ---------------------------------------------------------------- split(/\s+/)

  /** Index of the first white-space character, or `|s|` when there is none. */
  function FirstSpace(s: string): (k: nat)
    ensures k <= |s|
    ensures forall i :: 0 <= i < k ==> !IsSpace(s[i])
    ensures k < |s| ==> IsSpace(s[k])
    decreases |s|
  {
    if s == [] || IsSpace(s[0]) then 0 else 1 + FirstSpace(s[1..])
  }

  /**
   * `s.split(/\s+/)`: the fields between maximal runs of white space. As in JavaScript,
   * a leading or trailing run yields an empty first or last field and `""` yields `[""]`.
   */
  function Split(s: string): (r: seq<string>)
    ensures r != []
    ensures forall i :: 0 <= i < |r| ==> NoSpace(r[i])
    ensures forall i :: 0 < i < |r| - 1 ==> r[i] != []
    ensures |r| > 1 <==> FirstSpace(s) < |s|
    ensures r[0] == s[..FirstSpace(s)]
    decreases |s|
  {
    var k := FirstSpace(s);
    if k == |s| then [s]
    else
      var rest := TrimStart(s[k..]);
      SplitSecondField(rest);
      [s[..k]] + Split(rest)
  }

  /** After a white-space run the next field is non-empty, unless the input ended. */
  lemma SplitSecondField(t: string)
    requires t == [] || !IsSpace(t[0])
    ensures |t| > 0 ==> FirstSpace(t) > 0
  {
  }

  /** Fields with the separators put back between them. */
  function Interleave(fields: seq<string>, seps: seq<string>): string
    requires |fields| == |seps| + 1
    decreases |seps|
  {
    if seps == [] then fields[0] else fields[0] + seps[0] + Interleave(fields[1..], seps[1..])
  }

  /** Each separator is a non-empty stretch of white space. */
  predicate BlankRuns(runs: seq<string>) {
    forall i :: 0 <= i < |runs| ==> runs[i] != [] && IsBlank(runs[i])
  }

  /** `s` is the fields with the white-space runs `runs` between them. */
  predicate CutAt(fields: seq<string>, runs: seq<string>, s: string) {
    |fields| == |runs| + 1 && BlankRuns(runs) && Interleave(fields, runs) == s
  }

  /**
   * `split(/\s+/)` cuts exactly at white-space runs: there are non-empty white-space runs,
   * one fewer than the fields, that put back between the fields give the input.
   */
  lemma {:induction false} SplitRebuilds(s: string)
    ensures exists runs :: CutAt(Split(s), runs, s)
    decreases |s|
  {
    var k := FirstSpace(s);
    if k == |s| {
      assert s[..k] == s;
      assert CutAt(Split(s), [], s);
    } else {
      var t := s[k..];
      var rest := TrimStart(t);
      var n := |t| - |rest|;
      SplitRebuilds(rest);
      var runs :| CutAt(Split(rest), runs, rest);
      var run := t[..n];
      FirstRunBlank(s);
      BlankRunsCons(run, runs);
      SplitStep(s);
      CutTwice(s, k, n);
      assert t[n..] == rest;
      InterleaveCons(s[..k], run, Split(rest), runs);
      assert CutAt(Split(s), [run] + runs, s);
    }
  }

  lemma BlankRunsCons(run: string, runs: seq<string>)
    requires run != [] && IsBlank(run)
    requires BlankRuns(runs)
    ensures BlankRuns([run] + runs)
  {
    forall i | 1 <= i < |[run] + runs| ensures ([run] + runs)[i] == runs[i - 1] { }
  }

  lemma SplitStep(s: string)
    requires FirstSpace(s) < |s|
    ensures Split(s) == [s[..FirstSpace(s)]] + Split(TrimStart(s[FirstSpace(s)..]))
  {
  }

  /** The run after the first field is white space and not empty. */
  lemma FirstRunBlank(s: string)
    requires FirstSpace(s) < |s|
    ensures var t := s[FirstSpace(s)..]; var rest := TrimStart(t);
      t[..|t| - |rest|] != [] && IsBlank(t[..|t| - |rest|])
  {
    assert IsSpace(s[FirstSpace(s)..][0]);
  }

  lemma CutTwice<T>(s: seq<T>, k: nat, n: nat)
    requires k + n <= |s|
    ensures s == s[..k] + s[k..][..n] + s[k..][n..]
  {
    assert s[k..] == s[k..][..n] + s[k..][n..];
    assert s == s[..k] + s[k..];
  }

  lemma InterleaveCons(f: string, sep: string, fields: seq<string>, seps: seq<string>)
    requires |fields| == |seps| + 1
    ensures Interleave([f] + fields, [sep] + seps) == f + sep + Interleave(fields, seps)
  {
    assert ([f] + fields)[1..] == fields;
    assert ([sep] + seps)[1..] == seps;
  }

  /** `s` without its white-space characters. */
  function RemoveSpaces(s: string): string
    decreases |s|
  {
    if s == [] then [] else (if IsSpace(s[0]) then [] else [s[0]]) + RemoveSpaces(s[1..])
  }

  function Concat(ss: seq<string>): string
    decreases |ss|
  {
    if ss == [] then [] else ss[0] + Concat(ss[1..])
  }

  lemma {:induction false} RemoveSpacesAppend(a: string, b: string)
    ensures RemoveSpaces(a + b) == RemoveSpaces(a) + RemoveSpaces(b)
    decreases |a|
  {
    if a == [] {
      assert a + b == b;
    } else {
      assert (a + b)[1..] == a[1..] + b;
      RemoveSpacesAppend(a[1..], b);
    }
  }

  lemma {:induction false} RemoveSpacesOfBlank(s: string)
    requires IsBlank(s)
    ensures RemoveSpaces(s) == []
    decreases |s|
  {
    if s != [] {
      RemoveSpacesOfBlank(s[1..]);
    }
  }

  lemma {:induction false} RemoveSpacesOfNoSpace(s: string)
    requires NoSpace(s)
    ensures RemoveSpaces(s) == s
    decreases |s|
  {
    if s != [] {
      RemoveSpacesOfNoSpace(s[1..]);
    }
  }

  /** Splitting loses only the white space: joining the fields gives back every other character. */
  lemma {:induction false} SplitKeepsNonSpace(s: string)
    ensures Concat(Split(s)) == RemoveSpaces(s)
    decreases |s|
  {
    var k := FirstSpace(s);
    if k == |s| {
      RemoveSpacesOfNoSpace(s);
      assert Concat([s]) == s + Concat([]);
    } else {
      var rest := TrimStart(s[k..]);
      ConcatSplitStep(s);
      SplitKeepsNonSpace(rest);
      RemoveSpacesStep(s);
    }
  }

  /** One unfolding of `Concat(Split(s))` past the first white-space run. */
  lemma {:induction false} ConcatSplitStep(s: string)
    requires FirstSpace(s) < |s|
    ensures var k := FirstSpace(s);
      Concat(Split(s)) == s[..k] + Concat(Split(TrimStart(s[k..])))
  {
    var k := FirstSpace(s);
    var r := Split(s);
    assert r == [s[..k]] + Split(TrimStart(s[k..]));
    assert r[1..] == Split(TrimStart(s[k..]));
  }

  /** `RemoveSpaces` keeps the first field whole and drops the run after it. */
  lemma {:induction false} RemoveSpacesStep(s: string)
    requires FirstSpace(s) < |s|
    ensures var k := FirstSpace(s);
      RemoveSpaces(s) == s[..k] + RemoveSpaces(TrimStart(s[k..]))
  {
    var k := FirstSpace(s);
    var head, tail := s[..k], s[k..];
    assert s == head + tail;
    RemoveSpacesAppend(head, tail);
    RemoveSpacesOfNoSpace(head);
    RemoveSpacesDropsRun(tail);
  }

  /** A leading white-space run contributes nothing. */
  lemma RemoveSpacesDropsRun(t: string)
    ensures RemoveSpaces(t) == RemoveSpaces(TrimStart(t))
  {
    var rest := TrimStart(t);
    var run := t[..|t| - |rest|];
    assert t == run + rest;
    RemoveSpacesAppend(run, rest);
    RemoveSpacesOfBlank(run);
  }

  // ---------------------------------------------------------------- numbers

  function DigitChar(d: nat): char
    requires d < 10
  {
    ('0' as int + d) as char
  }

  /** Template-literal interpolation of a non-negative integer: its decimal digits. */
  function NatToString(n: nat): (r: string)
    ensures r != []
    ensures forall i :: 0 <= i < |r| ==> '0' <= r[i] <= '9'
    decreases n
  {
    if n < 10 then [DigitChar(n)] else NatToString(n / 10) + [DigitChar(n % 10)]
  }

  /** The value of a string of decimal digits. */
  function DecimalValue(s: string): nat
    decreases |s|
  {
    if s == [] then 0
    else
      var c := s[|s| - 1];
      DecimalValue(s[..|s| - 1]) * 10 + (if '0' <= c <= '9' then c as int - '0' as int else 0)
  }

  /** The digits written for `n` read back as `n`. */
  lemma {:induction false} NatToStringRoundTrip(n: nat)
    ensures DecimalValue(NatToString(n)) == n
    decreases n
  {
    var r := NatToString(n);
    if n < 10 {
      assert r[..0] == [];
    } else {
      NatToStringRoundTrip(n / 10);
      assert r[..|r| - 1] == NatToString(n / 10);
    }
  }
}
