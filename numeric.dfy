/**
 * `parseNumeric` of the dashboard page: a number parser for strings written
 * either in the European style (`1.234,56`) or in the US style (`1,234.56`).
 */
module NumericParse {
  import opened Wrappers
  import opened Text

  predicate IsSign(c: char) {
    c == '+' || c == '-'
  }

  predicate HasDigit(s: string) {
    exists i :: 0 <= i < |s| && IsDigit(s[i])
  }

  predicate AllDigits(s: string) {
    forall i :: 0 <= i < |s| ==> IsDigit(s[i])
  }

  /** The string without any occurrence of `c` (`s.replace(/c/g, "")`). */
  function Drop(s: string, c: char): (r: string)
  {
    if s == [] then []
    else if s[0] == c then Drop(s[1..], c)
    else [s[0]] + Drop(s[1..], c)
  }

  /** Every `a` replaced by `b` (`s.replace(/a/g, b)`). */
  function Replace(s: string, a: char, b: char): string {
    seq(|s|, i requires 0 <= i < |s| => if s[i] == a then b else s[i])
  }

  /**
   * The separator decision: a comma that exists and stands after the last dot
   * (or with no dot at all) is the decimal separator and the dots are thousands
   * separators; otherwise the commas are thousands separators and are dropped.
   */
  function Normalize(s: string): string {
    if HasChar(s, ',') && (!HasChar(s, '.') || LastIndexOf(s, ',') > LastIndexOf(s, '.'))
    then Replace(Drop(s, '.'), ',', '.')
    else Drop(s, ',')
  }

  /** The number of consecutive digits of `s` from position `j` on. */
  function DigitRun(s: string, j: nat): (n: nat)
    requires j <= |s|
    ensures j + n <= |s|
    decreases |s| - j
  {
    if j < |s| && IsDigit(s[j]) then 1 + DigitRun(s, j + 1) else 0
  }

  /** The lengths of the three parts of a match of `[+-]?\d*(?:\.\d+)?`: sign, whole digits, and `.` with the fraction digits. */
  datatype Run = Run(sign: nat, whole: nat, frac: nat) {
    function Length(): nat { sign + whole + frac }
    predicate HasDigits() { whole + frac > 0 }
  }

  /** The greedy match of `[+-]?\d*(?:\.\d+)?` that starts at position `i` (possibly empty). */
  function MatchAt(s: string, i: nat): (m: Run)
    requires i <= |s|
    ensures i + m.Length() <= |s|
    ensures m.sign <= 1 && (m.sign == 1 ==> IsSign(s[i]))
  {
    var sg := if i < |s| && IsSign(s[i]) then 1 else 0;
    var w := DigitRun(s, i + sg);
    var k := i + sg + w;
    var f := if k < |s| && s[k] == '.' && DigitRun(s, k + 1) > 0 then 1 + DigitRun(s, k + 1) else 0;
    Run(sg, w, f)
  }

  /**
   * The first match, scanning from position `i` as a global regular expression
   * does, that contains a digit. An empty match or a lone sign moves the scan on
   * by one position.
   */
  function FirstNumber(s: string, i: nat): Option<string>
    requires i <= |s|
    decreases |s| - i
  {
    if i == |s| then None
    else
      var m := MatchAt(s, i);
      if m.HasDigits() then Some(s[i..i + m.Length()]) else FirstNumber(s, i + 1)
  }

  /** The value of a string of decimal digits. */
  function DigitsValue(ds: string): nat {
    if ds == [] then 0 else DigitsValue(ds[..|ds| - 1]) * 10 + DigitValue(ds[|ds| - 1])
  }

  /** The value of the digits after a decimal point, up to the first non-digit. */
  function FracValue(ds: string): real {
    if ds == [] || !IsDigit(ds[0]) then 0.0 else (DigitValue(ds[0]) as real + FracValue(ds[1..])) / 10.0
  }

  /** `parseFloat` on a string of the shape `[+-]?\d*(\.\d+)?` (the only shape it is given here). */
  function ParseFloat(m: string): real {
    var sg := if |m| > 0 && IsSign(m[0]) then 1 else 0;
    var w := DigitRun(m, sg);
    var whole := DigitsValue(m[sg..sg + w]) as real;
    var frac := if sg + w < |m| && m[sg + w] == '.' then FracValue(m[sg + w + 1..]) else 0.0;
    if sg == 1 && m[0] == '-' then -(whole + frac) else whole + frac
  }

  /**
   * `parseNumeric(input)`: trim, decide the separators, take the first signed
   * decimal run that holds a digit, parse it. `None` when there is no such run.
   * `parseFloat` of such a run is never NaN, so the source's NaN test never fires.
   */
  function ParseNumeric(input: string): Option<real> {
    var candidate := Normalize(Trim(input));
    match FirstNumber(candidate, 0)
    case None => None
    case Some(m) => Some(ParseFloat(m))
  }

  // ---------------------------------------------------------------------------
  // Defined exactly when there is a digit.

  lemma {:induction false} DropKeepsDigits(s: string, c: char)
    requires !IsDigit(c)
    ensures HasDigit(Drop(s, c)) <==> HasDigit(s)
  {
    if s != [] {
      DropKeepsDigits(s[1..], c);
      var t := Drop(s[1..], c);
      if HasDigit(s[1..]) {
        var i :| 0 <= i < |s[1..]| && IsDigit(s[1..][i]);
        assert IsDigit(s[i + 1]);
      }
      if HasDigit(s) && !IsDigit(s[0]) {
        var i :| 0 <= i < |s| && IsDigit(s[i]);
        assert IsDigit(s[1..][i - 1]);
      }
      if s[0] != c {
        if HasDigit([s[0]] + t) && !IsDigit(s[0]) {
          var i :| 0 <= i < |[s[0]] + t| && IsDigit(([s[0]] + t)[i]);
          assert IsDigit(t[i - 1]);
        }
        if HasDigit(t) {
          var i :| 0 <= i < |t| && IsDigit(t[i]);
          assert IsDigit(([s[0]] + t)[i + 1]);
        }
        if IsDigit(s[0]) {
          assert IsDigit(([s[0]] + t)[0]);
        }
      }
    }
  }

  lemma {:induction false} NormalizeKeepsDigits(s: string)
    ensures HasDigit(Normalize(s)) <==> HasDigit(s)
  {
    DropKeepsDigits(s, '.');
    DropKeepsDigits(s, ',');
    var d := Drop(s, '.');
    var r := Replace(d, ',', '.');
    if HasDigit(d) {
      var i :| 0 <= i < |d| && IsDigit(d[i]);
      assert IsDigit(r[i]);
    }
    if HasDigit(r) {
      var i :| 0 <= i < |r| && IsDigit(r[i]);
      assert IsDigit(d[i]);
    }
  }

  lemma {:induction false} TrimStartKeepsDigits(s: string)
    ensures HasDigit(TrimStart(s)) <==> HasDigit(s)
  {
    if s != [] && IsWhite(s[0]) {
      TrimStartKeepsDigits(s[1..]);
      SuffixDigits(s);
    }
  }

  /** Dropping a non-digit first character keeps the digits. */
  lemma {:induction false} SuffixDigits(s: string)
    requires s != [] && !IsDigit(s[0])
    ensures HasDigit(s[1..]) <==> HasDigit(s)
  {
    if HasDigit(s) {
      var i :| 0 <= i < |s| && IsDigit(s[i]);
      assert s[1..][i - 1] == s[i];
    }
    if HasDigit(s[1..]) {
      var i :| 0 <= i < |s[1..]| && IsDigit(s[1..][i]);
      assert s[i + 1] == s[1..][i];
    }
  }

  /** Dropping a non-digit last character keeps the digits. */
  lemma {:induction false} PrefixDigits(s: string)
    requires s != [] && !IsDigit(s[|s| - 1])
    ensures HasDigit(s[..|s| - 1]) <==> HasDigit(s)
  {
    if HasDigit(s) {
      var i :| 0 <= i < |s| && IsDigit(s[i]);
      assert s[..|s| - 1][i] == s[i];
    }
    if HasDigit(s[..|s| - 1]) {
      var i :| 0 <= i < |s| - 1 && IsDigit(s[..|s| - 1][i]);
      assert s[i] == s[..|s| - 1][i];
    }
  }

  lemma {:induction false} TrimEndKeepsDigits(s: string)
    ensures HasDigit(TrimEnd(s)) <==> HasDigit(s)
    decreases |s|
  {
    if s != [] && IsWhite(s[|s| - 1]) {
      TrimEndKeepsDigits(s[..|s| - 1]);
      PrefixDigits(s);
    }
  }

  /** Where a digit stands, the match starting there holds a digit. */
  lemma {:induction false} DigitStartsMatch(s: string, i: nat)
    requires i < |s| && IsDigit(s[i])
    ensures MatchAt(s, i).HasDigits()
  {
    assert !IsSign(s[i]);
    assert DigitRun(s, i) > 0;
  }

  /** A match that holds a digit has one at or after its start. */
  lemma {:induction false} MatchDigitPosition(s: string, i: nat) returns (j: nat)
    requires i < |s| && MatchAt(s, i).HasDigits()
    ensures i <= j < |s| && IsDigit(s[j])
  {
    var m := MatchAt(s, i);
    if m.whole > 0 {
      j := i + m.sign;
    } else {
      j := i + m.sign + 1;
      assert DigitRun(s, i + m.sign + 1) > 0;
    }
  }

  /** Some digit stands at position `i` or later. */
  predicate DigitFrom(s: string, i: nat) {
    exists j :: i <= j < |s| && IsDigit(s[j])
  }

  lemma {:induction false} DigitFromStep(s: string, i: nat)
    requires i < |s|
    ensures DigitFrom(s, i) <==> IsDigit(s[i]) || DigitFrom(s, i + 1)
  {
    if DigitFrom(s, i) && !IsDigit(s[i]) {
      var j :| i <= j < |s| && IsDigit(s[j]);
      assert i + 1 <= j;
    }
    if IsDigit(s[i]) {
      assert i <= i < |s| && IsDigit(s[i]);
    }
  }

  /** One step of the scan: the match at `i` is taken when it holds a digit, else the scan moves on. */
  lemma {:induction false} FirstNumberStep(s: string, i: nat)
    requires i < |s|
    ensures FirstNumber(s, i).Some? <==> MatchAt(s, i).HasDigits() || FirstNumber(s, i + 1).Some?
    ensures MatchAt(s, i).HasDigits() ==> DigitFrom(s, i)
    ensures IsDigit(s[i]) ==> MatchAt(s, i).HasDigits()
  {
    if MatchAt(s, i).HasDigits() {
      var j := MatchDigitPosition(s, i);
    }
    if IsDigit(s[i]) { DigitStartsMatch(s, i); }
  }

  lemma {:induction false} FirstNumberFound(s: string, i: nat)
    requires i <= |s|
    ensures FirstNumber(s, i).Some? <==> DigitFrom(s, i)
    decreases |s| - i
  {
    if i < |s| {
      FirstNumberFound(s, i + 1);
      FirstNumberStep(s, i);
      DigitFromStep(s, i);
    }
  }

  /** A result exists exactly when the input holds a decimal digit: "N/A" gives none rather than 0. */
  lemma {:induction false} ParseNumericDefined(input: string)
    ensures ParseNumeric(input).Some? <==> HasDigit(input)
  {
    var t := Trim(input);
    TrimStartKeepsDigits(input);
    TrimEndKeepsDigits(TrimStart(input));
    NormalizeKeepsDigits(t);
    FirstNumberFound(Normalize(t), 0);
    var c := Normalize(t);
    if HasDigit(c) {
      var j :| 0 <= j < |c| && IsDigit(c[j]);
      assert DigitFrom(c, 0);
    }
  }

  // ---------------------------------------------------------------------------
  // The value computed for the usual shapes of numbers.

  lemma {:induction false} DigitRunExact(s: string, j: nat, n: nat)
    requires j + n <= |s|
    requires forall k :: j <= k < j + n ==> IsDigit(s[k])
    requires j + n == |s| || !IsDigit(s[j + n])
    ensures DigitRun(s, j) == n
    decreases n
  {
    if n > 0 { DigitRunExact(s, j + 1, n - 1); }
  }

  lemma {:induction false} DropAbsent(s: string, c: char)
    requires !HasChar(s, c)
    ensures Drop(s, c) == s
  {
    if s != [] {
      assert s[0] != c;
      forall i | 0 <= i < |s[1..]| ensures s[1..][i] != c {
        assert s[1..][i] == s[i + 1];
      }
      DropAbsent(s[1..], c);
      assert s == [s[0]] + s[1..];
    }
  }

  lemma {:induction false} DropConcat(a: string, b: string, c: char)
    ensures Drop(a + b, c) == Drop(a, c) + Drop(b, c)
  {
    if a != [] {
      assert (a + b)[1..] == a[1..] + b;
      DropConcat(a[1..], b, c);
    } else {
      assert a + b == b;
    }
  }

  /** `s` is made of digits except for the one character `c` at position `p`. */
  predicate Shape(s: string, p: int, c: char) {
    0 <= p < |s| && s[p] == c && forall k :: 0 <= k < |s| && k != p ==> IsDigit(s[k])
  }

  /** `s` is made of digits except for `c` at `p` and `d` at `q`, with `p < q`. */
  predicate Shape2(s: string, p: int, c: char, q: int, d: char) {
    0 <= p < q < |s| && s[p] == c && s[q] == d &&
    forall k :: 0 <= k < |s| && k != p && k != q ==> IsDigit(s[k])
  }

  /** No `c` in positions `i` to `j` of `s`. */
  lemma {:induction false} SliceLacks(s: string, i: int, j: int, c: char)
    requires 0 <= i <= j <= |s|
    requires forall k :: i <= k < j ==> s[k] != c
    ensures !HasChar(s[i..j], c)
  {
    forall k | 0 <= k < j - i ensures s[i..j][k] != c { assert s[i..j][k] == s[i + k]; }
  }

  /** The only `c` of `s` stands at `p`: removing it leaves the rest in order. */
  lemma {:induction false} DropOne(s: string, p: int, c: char)
    requires 0 <= p < |s| && s[p] == c
    requires forall k :: 0 <= k < |s| && k != p ==> s[k] != c
    ensures Drop(s, c) == s[..p] + s[p + 1..]
  {
    assert s == s[..p] + ([s[p]] + s[p + 1..]);
    DropConcat(s[..p], [s[p]] + s[p + 1..], c);
    DropConcat([s[p]], s[p + 1..], c);
    SliceLacks(s, 0, p, c);
    SliceLacks(s, p + 1, |s|, c);
    assert s[0..p] == s[..p] && s[p + 1..|s|] == s[p + 1..];
    DropAbsent(s[..p], c);
    DropAbsent(s[p + 1..], c);
    assert Drop([s[p]], c) == [];
  }

  lemma {:induction false} LastIndexAt(s: string, c: char, p: nat)
    requires p < |s| && s[p] == c
    requires forall j :: p < j < |s| ==> s[j] != c
    ensures LastIndexOf(s, c) == p
  {
    LastIndexOfFound(s, c);
    assert HasChar(s, c);
  }

  lemma {:induction false} ShapeNoWhite(s: string, p: int, c: char)
    requires Shape(s, p, c) && !IsWhite(c)
    ensures NoWhite(s)
  {
  }

  lemma {:induction false} ShapeLacks(s: string, p: int, c: char, d: char)
    requires Shape(s, p, c) && d != c && !IsDigit(d)
    ensures !HasChar(s, d)
  {
  }

  lemma {:induction false} Shape2NoWhite(s: string, p: int, c: char, q: int, d: char)
    requires Shape2(s, p, c, q, d) && !IsWhite(c) && !IsWhite(d)
    ensures NoWhite(s)
  {
  }

  /** Without a comma the dot stays the decimal point: nothing changes. */
  lemma {:induction false} NormalizeNoComma(s: string)
    requires NoWhite(s) && !HasChar(s, ',')
    ensures Normalize(Trim(s)) == s
  {
    TrimNoWhite(s);
    DropAbsent(s, ',');
  }

  /** With a comma and no dot the comma becomes the decimal point. */
  lemma {:induction false} NormalizeNoDot(s: string)
    requires NoWhite(s) && HasChar(s, ',') && !HasChar(s, '.')
    ensures Normalize(Trim(s)) == Replace(s, ',', '.')
  {
    TrimNoWhite(s);
    DropAbsent(s, '.');
  }

  /** With both, the later of the two last positions wins. */
  lemma {:induction false} NormalizeBoth(s: string)
    requires NoWhite(s) && HasChar(s, ',') && HasChar(s, '.')
    ensures Normalize(Trim(s)) ==
      if LastIndexOf(s, ',') > LastIndexOf(s, '.') then Replace(Drop(s, '.'), ',', '.') else Drop(s, ',')
  {
    TrimNoWhite(s);
  }

  lemma {:induction false} ReplaceOne(s: string, p: int)
    requires Shape(s, p, ',')
    ensures Replace(s, ',', '.') == s[..p] + "." + s[p + 1..]
  {
    var r := Replace(s, ',', '.');
    forall k | 0 <= k < |r| ensures r[k] == (s[..p] + "." + s[p + 1..])[k] {
      if k < p { assert s[k] != ','; } else if k > p { assert s[k] != ','; }
    }
  }

  /** The separator decision on digits with a lone dot: nothing changes. */
  lemma {:induction false} NormalizeDot(s: string, p: int)
    requires Shape(s, p, '.')
    ensures Normalize(Trim(s)) == s
  {
    ShapeNoWhite(s, p, '.');
    ShapeLacks(s, p, '.', ',');
    NormalizeNoComma(s);
  }

  /** The separator decision on digits with a lone comma: it becomes the decimal point. */
  lemma {:induction false} NormalizeComma(s: string, p: int)
    requires Shape(s, p, ',')
    ensures Normalize(Trim(s)) == s[..p] + "." + s[p + 1..]
  {
    ShapeNoWhite(s, p, ',');
    ShapeLacks(s, p, ',', '.');
    assert HasChar(s, ',');
    NormalizeNoDot(s);
    ReplaceOne(s, p);
  }

  /** Digits with the dot at `p` and the comma at `q` lose the dot. */
  lemma {:induction false} DropDotEuropean(s: string, p: int, q: int)
    requires Shape2(s, p, '.', q, ',')
    ensures Drop(s, '.') == s[..p] + s[p + 1..]
    ensures Shape(s[..p] + s[p + 1..], q - 1, ',')
  {
    DropOne(s, p, '.');
    var d := s[..p] + s[p + 1..];
    forall k | 0 <= k < |d| && k != q - 1 ensures IsDigit(d[k]) {
      if k < p { assert d[k] == s[k]; } else { assert d[k] == s[k + 1]; }
    }
    assert d[q - 1] == s[q];
  }

  /** In a European-style string the comma is last, so it is the decimal point. */
  lemma {:induction false} EuropeanBranch(s: string, p: int, q: int)
    requires Shape2(s, p, '.', q, ',')
    ensures Normalize(Trim(s)) == Replace(Drop(s, '.'), ',', '.')
  {
    Shape2NoWhite(s, p, '.', q, ',');
    assert HasChar(s, ',') && HasChar(s, '.');
    LastIndexAt(s, ',', q);
    LastIndexAt(s, '.', p);
    NormalizeBoth(s);
  }

  /** In a US-style string the dot is last, so the commas are dropped. */
  lemma {:induction false} UsBranch(s: string, p: int, q: int)
    requires Shape2(s, p, ',', q, '.')
    ensures Normalize(Trim(s)) == Drop(s, ',')
  {
    Shape2NoWhite(s, p, ',', q, '.');
    assert HasChar(s, ',') && HasChar(s, '.');
    LastIndexAt(s, ',', p);
    LastIndexAt(s, '.', q);
    NormalizeBoth(s);
  }

  lemma {:induction false} SpliceSlices(s: string, p: int, q: int)
    requires 0 <= p < q < |s|
    ensures (s[..p] + s[p + 1..])[..q - 1] == s[..p] + s[p + 1..q]
    ensures (s[..p] + s[p + 1..])[q..] == s[q + 1..]
  {
  }

  /** European style: the dots are dropped and the comma becomes the decimal point. */
  lemma {:induction false} NormalizeEuropean(s: string, p: int, q: int)
    requires Shape2(s, p, '.', q, ',')
    ensures Normalize(Trim(s)) == s[..p] + s[p + 1..q] + "." + s[q + 1..]
  {
    EuropeanBranch(s, p, q);
    DropDotEuropean(s, p, q);
    var d := s[..p] + s[p + 1..];
    ReplaceOne(d, q - 1);
    SpliceSlices(s, p, q);
  }

  /** US style: the commas are dropped and the dot stays the decimal point. */
  lemma {:induction false} NormalizeUs(s: string, p: int, q: int)
    requires Shape2(s, p, ',', q, '.')
    ensures Normalize(Trim(s)) == s[..p] + s[p + 1..q] + "." + s[q + 1..]
  {
    UsBranch(s, p, q);
    DropOne(s, p, ',');
    assert s[p + 1..] == s[p + 1..q] + "." + s[q + 1..];
  }

  lemma {:induction false} DecimalRuns(t: string, p: int)
    requires Shape(t, p, '.') && p < |t| - 1
    ensures DigitRun(t, 0) == p && DigitRun(t, p + 1) == |t| - p - 1
  {
    DigitRunExact(t, 0, p);
    DigitRunExact(t, p + 1, |t| - p - 1);
  }

  lemma {:induction false} DecimalRun(t: string, p: int)
    requires Shape(t, p, '.') && p < |t| - 1
    ensures MatchAt(t, 0) == Run(0, p, |t| - p)
    ensures DigitRun(t, 0) == p
  {
    DecimalRuns(t, p);
    assert !IsSign(t[0]);
  }

  /** Digits with one dot that has a digit after it form one whole match. */
  lemma {:induction false} DecimalMatch(t: string, p: int)
    requires Shape(t, p, '.') && p < |t| - 1
    ensures FirstNumber(t, 0) == Some(t)
    ensures ParseFloat(t) == DigitsValue(t[..p]) as real + FracValue(t[p + 1..])
  {
    DecimalRun(t, p);
    assert !IsSign(t[0]);
    assert t[0..|t|] == t;
    assert t[0..p] == t[..p];
  }

  /** A digit string is one whole match worth its digits. */
  lemma {:induction false} IntegerMatch(x: string)
    requires AllDigits(x) && x != []
    ensures FirstNumber(x, 0) == Some(x)
    ensures ParseFloat(x) == DigitsValue(x) as real
  {
    DigitRunExact(x, 0, |x|);
    assert MatchAt(x, 0) == Run(0, |x|, 0);
    assert x[0..|x|] == x;
  }

  /** `parseNumeric` when the normalised string is itself its first match. */
  lemma {:induction false} ParseOnce(s: string, v: real)
    requires FirstNumber(Normalize(Trim(s)), 0) == Some(Normalize(Trim(s)))
    requires ParseFloat(Normalize(Trim(s))) == v
    ensures ParseNumeric(s) == Some(v)
  {
  }

  /** `parseNumeric` once the normalised string and its single match are known. */
  lemma {:induction false} ParseVia(s: string, t: string, v: real)
    requires Normalize(Trim(s)) == t
    requires FirstNumber(t, 0) == Some(t)
    requires ParseFloat(t) == v
    ensures ParseNumeric(s) == Some(v)
  {
  }

  /** A plain digit string: `"1234"` gives 1234. */
  lemma {:induction false} ParseInteger(x: string)
    requires AllDigits(x) && x != []
    ensures ParseNumeric(x) == Some(DigitsValue(x) as real)
  {
    assert NoWhite(x);
    TrimNoWhite(x);
    assert !HasChar(x, ',');
    DropAbsent(x, ',');
    assert Trim(x) == x;
    assert Drop(x, ',') == x;
    assert Normalize(x) == x;
    IntegerMatch(x);
    ParseVia(x, x, DigitsValue(x) as real);
  }

  /** `s` is `x`, the character `c`, then `y`. */
  predicate Pieces(s: string, x: string, c: char, y: string) {
    |s| == |x| + |y| + 1 && s[..|x|] == x && s[|x|] == c && s[|x| + 1..] == y
  }

  /** `s` is `x`, `c`, `y`, `d`, then `z`. */
  predicate Pieces2(s: string, x: string, c: char, y: string, d: char, z: string) {
    |s| == |x| + |y| + |z| + 2 && s[..|x|] == x && s[|x|] == c &&
    s[|x| + 1..|x| + 1 + |y|] == y && s[|x| + 1 + |y|] == d && s[|x| + 2 + |y|..] == z
  }

  lemma {:induction false} JoinPieces(x: string, c: char, y: string)
    ensures Pieces(x + [c] + y, x, c, y)
  {
  }

  lemma {:induction false} JoinPieces2(x: string, c: char, y: string, d: char, z: string)
    ensures Pieces2(x + [c] + y + [d] + z, x, c, y, d, z)
  {
  }

  lemma {:induction false} PiecesShape(s: string, x: string, c: char, y: string)
    requires Pieces(s, x, c, y) && AllDigits(x) && AllDigits(y)
    ensures Shape(s, |x|, c)
  {
    forall k | 0 <= k < |s| && k != |x| ensures IsDigit(s[k]) {
      if k < |x| { assert s[k] == s[..|x|][k]; } else { assert s[k] == s[|x| + 1..][k - |x| - 1]; }
    }
  }

  lemma {:induction false} PiecesShape2(s: string, x: string, c: char, y: string, d: char, z: string)
    requires Pieces2(s, x, c, y, d, z) && AllDigits(x) && AllDigits(y) && AllDigits(z)
    ensures Shape2(s, |x|, c, |x| + 1 + |y|, d)
  {
    var q := |x| + 1 + |y|;
    forall k | 0 <= k < |s| && k != |x| && k != q ensures IsDigit(s[k]) {
      if k < |x| { assert s[k] == s[..|x|][k]; }
      else if k < q { assert s[k] == s[|x| + 1..q][k - |x| - 1]; }
      else { assert s[k] == s[q + 1..][k - q - 1]; }
    }
  }

  /** Digits, a dot and digits form one whole match worth the whole part plus the fraction. */
  lemma {:induction false} DecimalPieces(t: string, x: string, y: string)
    requires Pieces(t, x, '.', y) && AllDigits(x) && AllDigits(y) && y != []
    ensures FirstNumber(t, 0) == Some(t)
    ensures ParseFloat(t) == DigitsValue(x) as real + FracValue(y)
  {
    PiecesShape(t, x, '.', y);
    DecimalMatch(t, |x|);
  }

  /** Once the separator decision has produced `x.y`, the value is that of `x.y`. */
  lemma {:induction false} ParseViaDecimal(s: string, x: string, y: string)
    requires AllDigits(x) && AllDigits(y) && y != []
    requires Pieces(Normalize(Trim(s)), x, '.', y)
    ensures ParseNumeric(s) == Some(DigitsValue(x) as real + FracValue(y))
  {
    DecimalPieces(Normalize(Trim(s)), x, y);
    ParseOnce(s, DigitsValue(x) as real + FracValue(y));
  }

  lemma {:induction false} DotPieces(s: string, x: string, y: string)
    requires Pieces(s, x, '.', y) && AllDigits(x) && AllDigits(y)
    ensures Pieces(Normalize(Trim(s)), x, '.', y)
  {
    PiecesShape(s, x, '.', y);
    NormalizeDot(s, |x|);
  }

  lemma {:induction false} CommaPieces(s: string, x: string, y: string)
    requires Pieces(s, x, ',', y) && AllDigits(x) && AllDigits(y)
    ensures Pieces(Normalize(Trim(s)), x, '.', y)
  {
    PiecesShape(s, x, ',', y);
    NormalizeComma(s, |x|);
    JoinPieces(x, '.', y);
  }

  lemma {:induction false} EuropeanPieces(s: string, x: string, y: string, z: string)
    requires Pieces2(s, x, '.', y, ',', z) && AllDigits(x) && AllDigits(y) && AllDigits(z)
    ensures Pieces(Normalize(Trim(s)), x + y, '.', z)
  {
    PiecesShape2(s, x, '.', y, ',', z);
    NormalizeEuropean(s, |x|, |x| + 1 + |y|);
    JoinPieces(x + y, '.', z);
  }

  lemma {:induction false} UsPieces(s: string, x: string, y: string, z: string)
    requires Pieces2(s, x, ',', y, '.', z) && AllDigits(x) && AllDigits(y) && AllDigits(z)
    ensures Pieces(Normalize(Trim(s)), x + y, '.', z)
  {
    PiecesShape2(s, x, ',', y, '.', z);
    NormalizeUs(s, |x|, |x| + 1 + |y|);
    JoinPieces(x + y, '.', z);
  }

  lemma {:induction false} DigitsConcat(x: string, y: string)
    requires AllDigits(x) && AllDigits(y)
    ensures AllDigits(x + y)
  {
    forall k | 0 <= k < |x + y| ensures IsDigit((x + y)[k]) {
      if k < |x| { assert (x + y)[k] == x[k]; } else { assert (x + y)[k] == y[k - |x|]; }
    }
  }

  function Pow10(n: nat): nat {
    if n == 0 then 1 else 10 * Pow10(n - 1)
  }

  lemma {:induction false} DigitsValueLast(x: string, y: string)
    requires y != []
    ensures DigitsValue(x + y) == DigitsValue(x + y[..|y| - 1]) * 10 + DigitValue(y[|y| - 1])
  {
    assert (x + y)[..|x + y| - 1] == x + y[..|y| - 1];
    assert (x + y)[|x + y| - 1] == y[|y| - 1];
  }

  lemma {:induction false} ShiftPlace(a: int, b: int, c: int, d: int)
    ensures (a * b + c) * 10 + d == a * (10 * b) + (c * 10 + d)
  {
  }

  /** The digits of `y` written after those of `x` shift `x` left by `|y|` places. */
  lemma {:induction false} DigitsValueConcat(x: string, y: string)
    ensures DigitsValue(x + y) == DigitsValue(x) * Pow10(|y|) + DigitsValue(y)
    decreases |y|
  {
    if y == [] {
      assert x + y == x;
    } else {
      var y' := y[..|y| - 1];
      DigitsValueLast(x, y);
      DigitsValueConcat(x, y');
      ShiftPlace(DigitsValue(x), Pow10(|y'|), DigitsValue(y'), DigitValue(y[|y| - 1]));
    }
  }

  /** A lone dot is the decimal separator: `"12.5"` gives 12.5. */
  lemma {:induction false} ParseDecimalDot(x: string, y: string)
    requires AllDigits(x) && AllDigits(y) && y != []
    ensures ParseNumeric(x + "." + y) == Some(DigitsValue(x) as real + FracValue(y))
  {
    JoinPieces(x, '.', y);
    DotPieces(x + "." + y, x, y);
    ParseViaDecimal(x + "." + y, x, y);
  }

  /** A lone comma is the decimal separator: `"1,5"` gives 1.5. */
  lemma {:induction false} ParseDecimalComma(x: string, y: string)
    requires AllDigits(x) && AllDigits(y) && y != []
    ensures ParseNumeric(x + "," + y) == Some(DigitsValue(x) as real + FracValue(y))
  {
    JoinPieces(x, ',', y);
    CommaPieces(x + "," + y, x, y);
    ParseViaDecimal(x + "," + y, x, y);
  }

  /** The separator decision turns `x.y,z` into the decimal `xy.z`. */
  lemma {:induction false} EuropeanForm(x: string, y: string, z: string)
    requires AllDigits(x) && AllDigits(y) && AllDigits(z)
    ensures AllDigits(x + y)
    ensures Pieces(Normalize(Trim(x + "." + y + "," + z)), x + y, '.', z)
  {
    JoinPieces2(x, '.', y, ',', z);
    EuropeanPieces(x + "." + y + "," + z, x, y, z);
    DigitsConcat(x, y);
  }

  /** European style, dot for thousands and comma for decimals: `"1.234,56"` gives 1234.56. */
  lemma {:induction false} ParseEuropean(x: string, y: string, z: string)
    requires AllDigits(x) && AllDigits(y) && AllDigits(z) && z != []
    ensures ParseNumeric(x + "." + y + "," + z) ==
      Some((DigitsValue(x) * Pow10(|y|) + DigitsValue(y)) as real + FracValue(z))
  {
    EuropeanForm(x, y, z);
    ParseViaDecimal(x + "." + y + "," + z, x + y, z);
    DigitsValueConcat(x, y);
  }

  /** The separator decision turns `x,y.z` into the decimal `xy.z`. */
  lemma {:induction false} UsForm(x: string, y: string, z: string)
    requires AllDigits(x) && AllDigits(y) && AllDigits(z)
    ensures AllDigits(x + y)
    ensures Pieces(Normalize(Trim(x + "," + y + "." + z)), x + y, '.', z)
  {
    JoinPieces2(x, ',', y, '.', z);
    UsPieces(x + "," + y + "." + z, x, y, z);
    DigitsConcat(x, y);
  }

  /** US style, comma for thousands and dot for decimals: `"1,234.56"` gives 1234.56. */
  lemma {:induction false} ParseUs(x: string, y: string, z: string)
    requires AllDigits(x) && AllDigits(y) && AllDigits(z) && z != []
    ensures ParseNumeric(x + "," + y + "." + z) ==
      Some((DigitsValue(x) * Pow10(|y|) + DigitsValue(y)) as real + FracValue(z))
  {
    UsForm(x, y, z);
    ParseViaDecimal(x + "," + y + "." + z, x + y, z);
    DigitsValueConcat(x, y);
  }

  /** A minus sign ahead of a dotted decimal leaves the separator decision with nothing to change. */
  lemma {:induction false} NegativeNormal(s: string, x: string, y: string)
    requires |s| > 0 && s[0] == '-' && Pieces(s[1..], x, '.', y) && AllDigits(x) && AllDigits(y)
    ensures Normalize(Trim(s)) == s
  {
    var t := s[1..];
    PiecesShape(t, x, '.', y);
    ShapeNoWhite(t, |x|, '.');
    ShapeLacks(t, |x|, '.', ',');
    forall k | 0 <= k < |s| ensures !IsWhite(s[k]) && s[k] != ',' {
      if k > 0 { assert s[k] == t[k - 1]; }
    }
    NormalizeNoComma(s);
  }

  /** The whole of `-x.y` is one match, worth the negated value. */
  lemma {:induction false} NegativeMatch(s: string, x: string, y: string)
    requires |s| > 0 && s[0] == '-' && Pieces(s[1..], x, '.', y) && AllDigits(x) && AllDigits(y) && y != []
    ensures FirstNumber(s, 0) == Some(s)
    ensures ParseFloat(s) == -(DigitsValue(x) as real + FracValue(y))
  {
    var t := s[1..];
    var p := |x| + 1;
    forall k | 1 <= k < p ensures IsDigit(s[k]) { assert s[k] == t[..|x|][k - 1]; }
    forall k | p + 1 <= k < |s| ensures IsDigit(s[k]) { assert s[k] == t[|x| + 1..][k - p - 1]; }
    assert s[p] == t[|x|];
    DigitRunExact(s, 1, |x|);
    DigitRunExact(s, p + 1, |y|);
    assert MatchAt(s, 0) == Run(1, |x|, 1 + |y|);
    assert s[0..|s|] == s;
    assert s[1..p] == x;
    assert s[p + 1..] == y;
  }

  lemma {:induction false} NegativePieces(s: string, x: string, y: string)
    requires |s| > 0 && s[0] == '-' && Pieces(s[1..], x, '.', y) && AllDigits(x) && AllDigits(y) && y != []
    ensures ParseNumeric(s) == Some(-(DigitsValue(x) as real + FracValue(y)))
  {
    NegativeNormal(s, x, y);
    NegativeMatch(s, x, y);
    ParseVia(s, s, -(DigitsValue(x) as real + FracValue(y)));
  }

  /** A leading minus sign negates: `"-12.5"` gives -12.5. */
  lemma {:induction false} ParseNegative(x: string, y: string)
    requires AllDigits(x) && AllDigits(y) && y != []
    ensures ParseNumeric("-" + x + "." + y) == Some(-(DigitsValue(x) as real + FracValue(y)))
  {
    JoinPieces(x, '.', y);
    assert ("-" + x + "." + y)[1..] == x + "." + y;
    NegativePieces("-" + x + "." + y, x, y);
  }
}
