/** Column-label normalisation: strip the surrounding whitespace, upper-case, then turn every
    space into an underscore. */
module Names {
  import opened Tables

  /** The characters Python's `str.isspace` accepts, which are what `str.strip()` removes. */
  predicate IsWhitespace(c: char)
  {
    var n := c as int;
    (9 <= n <= 13) || (28 <= n <= 32) || n == 0x85 || n == 0xA0 || n == 0x1680 ||
    (0x2000 <= n <= 0x200A) || n == 0x2028 || n == 0x2029 || n == 0x202F ||
    n == 0x205F || n == 0x3000
  }

  predicate IsLowerAscii(c: char)
  {
    'a' <= c <= 'z'
  }

  /** `str.upper` on one character; only the ASCII letters are mapped. */
  function UpperChar(c: char): (u: char)
    ensures !IsLowerAscii(u)
    ensures IsLowerAscii(c) ==> 'A' <= u <= 'Z' && u as int == c as int - 32
    ensures !IsLowerAscii(c) ==> u == c
  {
    if IsLowerAscii(c) then (c as int - 32) as char else c
  }

  /** How many whitespace characters open `s`. */
  function LeadingWhitespace(s: string): (n: nat)
    ensures n <= |s|
    ensures forall k :: 0 <= k < n ==> IsWhitespace(s[k])
    ensures n < |s| ==> !IsWhitespace(s[n])
  {
    if |s| > 0 && IsWhitespace(s[0]) then 1 + LeadingWhitespace(s[1..]) else 0
  }

  /** How many whitespace characters close `s`. */
  function TrailingWhitespace(s: string): (n: nat)
    ensures n <= |s|
    ensures forall k :: |s| - n <= k < |s| ==> IsWhitespace(s[k])
    ensures n < |s| ==> !IsWhitespace(s[|s| - 1 - n])
  {
    if |s| > 0 && IsWhitespace(s[|s| - 1]) then 1 + TrailingWhitespace(s[..|s| - 1]) else 0
  }

  /** Python's `str.strip` with no argument: the longest infix of `s` that neither starts nor ends with whitespace;
      everything outside it is whitespace. */
  function Strip(s: string): (r: string)
    ensures r == [] || (!IsWhitespace(r[0]) && !IsWhitespace(r[|r| - 1]))
    ensures LeadingWhitespace(s) + |r| <= |s|
    ensures r == s[LeadingWhitespace(s)..LeadingWhitespace(s) + |r|]
    ensures forall k :: 0 <= k < |s| && !IsWhitespace(s[k]) ==>
              LeadingWhitespace(s) <= k < LeadingWhitespace(s) + |r|
  {
    var i := LeadingWhitespace(s);
    var rest := s[i..];
    rest[..|rest| - TrailingWhitespace(rest)]
  }

  /** Python's `str.upper`, over ASCII. */
  function Upper(s: string): (r: string)
    ensures |r| == |s|
    ensures forall k :: 0 <= k < |s| ==> r[k] == UpperChar(s[k])
  {
    seq(|s|, k requires 0 <= k < |s| => UpperChar(s[k]))
  }

  /** Every space (U+0020, and no other whitespace) becomes an underscore. */
  function ReplaceSpaces(s: string): (r: string)
    ensures |r| == |s| && ' ' !in r
    ensures forall k :: 0 <= k < |s| ==> r[k] == if s[k] == ' ' then '_' else s[k]
  {
    seq(|s|, k requires 0 <= k < |s| => if s[k] == ' ' then '_' else s[k])
  }

  /** The label `standardize_column_names` gives a column called `name`. */
  function NormalizeName(name: string): (r: string)
    ensures |r| == |Strip(name)|
    ensures ' ' !in r
    ensures forall k :: 0 <= k < |r| ==> !IsLowerAscii(r[k])
    ensures r == [] || (!IsWhitespace(r[0]) && !IsWhitespace(r[|r| - 1]))
    ensures forall k :: 0 <= k < |r| ==>
              r[k] == (if Strip(name)[k] == ' ' then '_' else UpperChar(Strip(name)[k]))
  {
    ReplaceSpaces(Upper(Strip(name)))
  }

  /** A string that neither starts nor ends with whitespace is its own strip. */
  lemma StripTrimmed(s: string)
    requires s == [] || (!IsWhitespace(s[0]) && !IsWhitespace(s[|s| - 1]))
    ensures Strip(s) == s
  {
    if s != [] {
      assert LeadingWhitespace(s) == 0;
      assert |s| - 1 < |Strip(s)|;
    }
  }

  /** Normalising a normalised name changes nothing. */
  lemma {:induction false} NormalizeNameIdempotent(name: string)
    ensures NormalizeName(NormalizeName(name)) == NormalizeName(name)
  {
    var n := NormalizeName(name);
    StripTrimmed(n);
    assert Upper(n) == n;
    assert ReplaceSpaces(n) == n;
  }

  /** The new labels `standardize_column_names` assigns, label by label. */
  function StandardizedLabels(labels: seq<string>): (r: seq<string>)
    ensures |r| == |labels|
    ensures forall k :: 0 <= k < |r| ==> ' ' !in r[k]
    ensures forall k, i :: 0 <= k < |r| && 0 <= i < |r[k]| ==> !IsLowerAscii(r[k][i])
    ensures forall k :: 0 <= k < |r| ==>
              r[k] == [] || (!IsWhitespace(r[k][0]) && !IsWhitespace(r[k][|r[k]| - 1]))
  {
    seq(|labels|, k requires 0 <= k < |labels| => NormalizeName(labels[k]))
  }

  /** The table after `standardize_column_names`: only the labels differ. */
  function StandardizedTable(t: Table): (r: Table)
    ensures r.rows == t.rows && r.columns == t.columns
    ensures |r.labels| == |t.labels|
    ensures forall k :: 0 <= k < |t.labels| ==> r.labels[k] == NormalizeName(t.labels[k])
    ensures t.WellFormed() ==> r.WellFormed()
  {
    Table(t.rows, StandardizedLabels(t.labels), t.columns)
  }

  lemma {:induction false} StandardizedTableIdempotent(t: Table)
    ensures StandardizedTable(StandardizedTable(t)) == StandardizedTable(t)
  {
    var once := StandardizedTable(t);
    var twice := StandardizedTable(once);
    forall k | 0 <= k < |t.labels|
      ensures twice.labels[k] == once.labels[k]
    {
      NormalizeNameIdempotent(t.labels[k]);
    }
  }

  /** One space on either side of a trimmed name is stripped again. */
  lemma StripPadded(s: string)
    requires s != [] && !IsWhitespace(s[0]) && !IsWhitespace(s[|s| - 1])
    ensures Strip([' '] + s + [' ']) == s
  {
    var p := [' '] + s + [' '];
    assert p[1..] == s + [' '];
    assert LeadingWhitespace(p) == 1;
    var rest := p[1..];
    assert rest[..|rest| - 1] == s;
    assert TrailingWhitespace(rest) == 1;
  }

  /** The first label of the unit tests. */
  lemma NormalizeDuration()
    ensures NormalizeName("Dur. (ms)") == "DUR._(MS)"
  {
    var a := "Dur. (ms)";
    StripTrimmed(a);
    var n := NormalizeName(a);
    assert n[0] == 'D' && n[1] == 'U' && n[2] == 'R' && n[3] == '.' && n[4] == '_';
    assert n[5] == '(' && n[6] == 'M' && n[7] == 'S' && n[8] == ')';
  }

  /** Upper-casing and replacing spaces work character by character. */
  lemma UpperReplaceAppend(x: string, y: string)
    ensures ReplaceSpaces(Upper(x + y)) == ReplaceSpaces(Upper(x)) + ReplaceSpaces(Upper(y))
  {
  }

  /** The two halves of `'Avg RTT DL (ms)'`, upper-cased with spaces replaced. */
  lemma UpperReplaceAvgRtt()
    ensures ReplaceSpaces(Upper("Avg RTT ")) == "AVG_RTT_"
  {
    var n := ReplaceSpaces(Upper("Avg RTT "));
    assert n[0] == 'A' && n[1] == 'V' && n[2] == 'G' && n[3] == '_';
    assert n[4] == 'R' && n[5] == 'T' && n[6] == 'T' && n[7] == '_';
  }

  lemma UpperReplaceDlMs()
    ensures ReplaceSpaces(Upper("DL (ms)")) == "DL_(MS)"
  {
    var m := ReplaceSpaces(Upper("DL (ms)"));
    assert m[0] == 'D' && m[1] == 'L' && m[2] == '_' && m[3] == '(';
    assert m[4] == 'M' && m[5] == 'S' && m[6] == ')';
  }

  /** The second label of the unit tests. */
  lemma NormalizeRoundTripTime()
    ensures NormalizeName("Avg RTT DL (ms)") == "AVG_RTT_DL_(MS)"
  {
    var x, y := "Avg RTT ", "DL (ms)";
    assert x + y == "Avg RTT DL (ms)";
    StripTrimmed(x + y);
    UpperReplaceAppend(x, y);
    UpperReplaceAvgRtt();
    UpperReplaceDlMs();
  }

  /** The same label padded with a space on either side. */
  lemma NormalizePaddedRoundTripTime()
    ensures NormalizeName(" Avg RTT DL (ms) ") == "AVG_RTT_DL_(MS)"
  {
    var b := "Avg RTT DL (ms)";
    var p := " Avg RTT DL (ms) ";
    assert p == [' '] + b + [' '];
    StripPadded(b);
    StripTrimmed(b);
    assert Strip(p) == Strip(b);
    NormalizeRoundTripTime();
  }
}
