/**
 * The string built-ins that the label code relies on: splitting on one
 * separator character (as `str.split(sep)` does), the decimal integer
 * syntax accepted when a token is converted with `int`, and the decimal
 * rendering that `int` inverts.
 */
module Text {
  import opened Wrappers

  /** Joins pieces with a separator between consecutive pieces. */
  function Join(pieces: seq<string>, sep: char): string
    requires |pieces| >= 1
    decreases |pieces|
  {
    if |pieces| == 1 then pieces[0] else pieces[0] + [sep] + Join(pieces[1..], sep)
  }

  /**
   * Splits `s` at every occurrence of `sep`. There is always at least one
   * piece (the empty string gives one empty piece), no piece contains the
   * separator, and joining the pieces back gives `s`.
   */
  function Split(s: string, sep: char): (pieces: seq<string>)
    ensures |pieces| >= 1
    ensures forall i :: 0 <= i < |pieces| ==> sep !in pieces[i]
    ensures Join(pieces, sep) == s
    decreases |s|
  {
    if s == [] then [""]
    else
      var rest := Split(s[1..], sep);
      if s[0] == sep then
        assert s == [sep] + Join(rest, sep);
        [""] + rest
      else
        var pieces := [[s[0]] + rest[0]] + rest[1..];
        assert pieces[1..] == rest[1..];
        assert s == [s[0]] + Join(rest, sep);
        pieces
  }

  /** A piece followed by the separator starts a new piece. */
  lemma {:induction false} SplitAfterPiece(p: string, sep: char, rest: string)
    requires sep !in p
    ensures Split(p + [sep] + rest, sep) == [p] + Split(rest, sep)
    decreases |p|
  {
    if p == [] {
      assert (p + [sep] + rest)[1..] == rest;
    } else {
      assert (p + [sep] + rest)[1..] == p[1..] + [sep] + rest;
      SplitAfterPiece(p[1..], sep, rest);
      assert [p[0]] + p[1..] == p;
    }
  }

  /** A string without the separator is a single piece. */
  lemma {:induction false} SplitSinglePiece(p: string, sep: char)
    requires sep !in p
    ensures Split(p, sep) == [p]
    decreases |p|
  {
    if p != [] {
      SplitSinglePiece(p[1..], sep);
      assert [p[0]] + p[1..] == p;
    }
  }

  /** Splitting inverts joining pieces that do not contain the separator. */
  lemma {:induction false} SplitOfJoin(pieces: seq<string>, sep: char)
    requires |pieces| >= 1
    requires forall i :: 0 <= i < |pieces| ==> sep !in pieces[i]
    ensures Split(Join(pieces, sep), sep) == pieces
    decreases |pieces|
  {
    if |pieces| == 1 {
      SplitSinglePiece(pieces[0], sep);
    } else {
      SplitOfJoin(pieces[1..], sep);
      SplitAfterPiece(pieces[0], sep, Join(pieces[1..], sep));
      assert [pieces[0]] + pieces[1..] == pieces;
    }
  }

  /** The last piece is a suffix of the joined string, preceded by the separator when there are others. */
  lemma {:induction false} JoinEndsWithLast(pieces: seq<string>, sep: char)
    requires |pieces| >= 1
    ensures var s, last := Join(pieces, sep), pieces[|pieces| - 1];
            |last| <= |s| && s[|s| - |last|..] == last &&
            (|pieces| > 1 ==> |last| < |s| && s[|s| - |last| - 1] == sep)
    decreases |pieces|
  {
    if |pieces| > 1 {
      JoinEndsWithLast(pieces[1..], sep);
      var s, last, tail := Join(pieces, sep), pieces[|pieces| - 1], Join(pieces[1..], sep);
      assert s == (pieces[0] + [sep]) + tail;
      assert s[|s| - |tail|..] == tail;
      if |pieces| == 2 {
        assert tail == last;
      }
    }
  }

  /** The first piece is a prefix of the joined string, followed by the separator when there are others. */
  lemma JoinStartsWithFirst(pieces: seq<string>, sep: char)
    requires |pieces| >= 1
    ensures var s, first := Join(pieces, sep), pieces[0];
            |first| <= |s| && s[..|first|] == first &&
            (|pieces| > 1 ==> |first| < |s| && s[|first|] == sep)
  {
  }

  /** The part of a path after its last '/', as `path.split('/')[-1]`. */
  function BaseName(path: string): (name: string)
    ensures '/' !in name
    ensures |name| <= |path| && path[|path| - |name|..] == name
    ensures |name| < |path| ==> path[|path| - |name| - 1] == '/'
  {
    var parts := Split(path, '/');
    JoinEndsWithLast(parts, '/');
    parts[|parts| - 1]
  }

  /** The part of a file name before its first '.', as `name.split('.')[0]`. */
  function Stem(name: string): (stem: string)
    ensures '.' !in stem
    ensures |stem| <= |name| && name[..|stem|] == stem
    ensures |stem| < |name| ==> name[|stem|] == '.'
  {
    var parts := Split(name, '.');
    JoinStartsWithFirst(parts, '.');
    parts[0]
  }

  predicate IsDigit(c: char) {
    '0' <= c <= '9'
  }

  predicate AllDigits(s: string) {
    forall i :: 0 <= i < |s| ==> IsDigit(s[i])
  }

  /** The value of a string of decimal digits, most significant first. */
  function DigitsValue(s: string): nat
    requires AllDigits(s)
    decreases |s|
  {
    if s == [] then 0 else DigitsValue(s[..|s| - 1]) * 10 + (s[|s| - 1] as int - '0' as int)
  }

  /**
   * The integer that `int(token)` yields: one or more decimal digits,
   * optionally preceded by '+' or '-'; anything else is rejected.
   */
  function ParseInt(token: string): (r: Option<int>)
    ensures r.Some? ==> |token| > 0 && (IsDigit(token[0]) || (|token| > 1 && token[0] in "+-"))
    ensures r.Some? ==> forall i :: 1 <= i < |token| ==> IsDigit(token[i])
    ensures r.Some? && r.value < 0 ==> token[0] == '-'
    ensures |token| > 0 && AllDigits(token) ==> r == Some(DigitsValue(token))
    ensures |token| > 1 && token[0] == '+' && AllDigits(token[1..]) ==> r == Some(DigitsValue(token[1..]))
    ensures |token| > 1 && token[0] == '-' && AllDigits(token[1..]) ==> r == Some(-(DigitsValue(token[1..]) as int))
  {
    if |token| > 0 && AllDigits(token) then Some(DigitsValue(token))
    else if |token| > 1 && token[0] == '+' && AllDigits(token[1..]) then Some(DigitsValue(token[1..]))
    else if |token| > 1 && token[0] == '-' && AllDigits(token[1..]) then Some(-(DigitsValue(token[1..]) as int))
    else None
  }

  function DigitChar(d: nat): char
    requires d < 10
  {
    ('0' as int + d) as char
  }

  /** The decimal digits of `n`, without leading zeros. */
  function ShowNat(n: nat): (s: string)
    ensures |s| > 0 && AllDigits(s)
    ensures DigitsValue(s) == n
    decreases n
  {
    if n < 10 then [DigitChar(n)]
    else
      var s := ShowNat(n / 10) + [DigitChar(n % 10)];
      assert s[..|s| - 1] == ShowNat(n / 10);
      s
  }

  /** The decimal rendering of `n`, as `str(n)`; `int` gives `n` back and it has no space. */
  function Show(n: int): (s: string)
    ensures ParseInt(s) == Some(n)
    ensures ' ' !in s
  {
    if n < 0 then
      var digits := ShowNat(-n);
      assert ("-" + digits)[1..] == digits;
      assert !IsDigit(("-" + digits)[0]);
      "-" + digits
    else ShowNat(n)
  }
}
