// Options, lists without repetition, and strings as the program uses them: strings.Split, strings.Join and "%d".
module Text {

  datatype Option<+T> = None | Some(value: T)

  ghost predicate Distinct<T>(s: seq<T>) {
    forall i, j :: 0 <= i < j < |s| ==> s[i] != s[j]
  }

  /** Every position of `s` that holds `sep` ends a piece, so there is always at least one piece. */
  function Split(s: string, sep: char): (pieces: seq<string>)
    ensures |pieces| >= 1
    ensures forall i :: 0 <= i < |pieces| ==> sep !in pieces[i]
  {
    if s == "" then [""]
    else
      var rest := Split(s[1..], sep);
      if s[0] == sep then [""] + rest else [[s[0]] + rest[0]] + rest[1..]
  }

  function Join(pieces: seq<string>, sep: char): string {
    if |pieces| == 0 then ""
    else if |pieces| == 1 then pieces[0]
    else pieces[0] + [sep] + Join(pieces[1..], sep)
  }

  ghost predicate Free(pieces: seq<string>, sep: char) {
    forall i :: 0 <= i < |pieces| ==> sep !in pieces[i]
  }

  lemma {:induction false} SplitWhole(s: string, sep: char)
    requires sep !in s
    ensures Split(s, sep) == [s]
  {
    if s == "" {
    } else {
      SplitWhole(s[1..], sep);
      assert [s[0]] + s[1..] == s;
    }
  }

  lemma {:induction false} SplitFirst(s: string, sep: char, t: string)
    requires sep !in s
    ensures Split(s + [sep] + t, sep) == [s] + Split(t, sep)
  {
    var whole := s + [sep] + t;
    if s == "" {
      assert whole[1..] == t;
    } else {
      assert whole[1..] == s[1..] + [sep] + t;
      SplitFirst(s[1..], sep, t);
      assert [s[0]] + s[1..] == s;
    }
  }

  /** Splitting undoes joining, for pieces that do not contain the separator. */
  lemma {:induction false} SplitOfJoin(pieces: seq<string>, sep: char)
    requires |pieces| >= 1 && Free(pieces, sep)
    ensures Split(Join(pieces, sep), sep) == pieces
  {
    if |pieces| == 1 {
      SplitWhole(pieces[0], sep);
    } else {
      assert Free(pieces[1..], sep);
      SplitOfJoin(pieces[1..], sep);
      SplitFirst(pieces[0], sep, Join(pieces[1..], sep));
      assert [pieces[0]] + pieces[1..] == pieces;
    }
  }

  lemma {:induction false} JoinWithout(pieces: seq<string>, sep: char, c: char)
    requires c != sep && Free(pieces, c)
    ensures c !in Join(pieces, sep)
  {
    if |pieces| > 1 {
      assert Free(pieces[1..], c);
      JoinWithout(pieces[1..], sep, c);
    }
  }

  function Digit(d: nat): char
    requires d < 10
  {
    ['0', '1', '2', '3', '4', '5', '6', '7', '8', '9'][d]
  }

  function Decimal(n: nat): (s: string)
    ensures |s| >= 1 && '-' !in s && ',' !in s && '/' !in s
  {
    if n < 10 then [Digit(n)] else Decimal(n / 10) + [Digit(n % 10)]
  }

  /** The "%d" verb on a signed number. */
  function FormatInt(n: int): (s: string)
    ensures |s| >= 1 && ',' !in s
  {
    if n < 0 then "-" + Decimal(-n) else Decimal(n)
  }

  lemma {:induction false} DecimalInjective(a: nat, b: nat)
    requires Decimal(a) == Decimal(b)
    ensures a == b
  {
    var s, t := Decimal(a), Decimal(b);
    assert s[|s| - 1] == Digit(a % 10) && t[|t| - 1] == Digit(b % 10);
    if a >= 10 || b >= 10 {
      assert a >= 10 && b >= 10;
      assert s[..|s| - 1] == Decimal(a / 10) && t[..|t| - 1] == Decimal(b / 10);
      DecimalInjective(a / 10, b / 10);
    }
  }

  /** The number a string of decimal digits stands for. */
  function Parsed(s: string): int {
    if s == "" then 0 else 10 * Parsed(s[..|s| - 1]) + (s[|s| - 1] as int - '0' as int)
  }

  /** The digits stand for the number, without a leading zero unless it is zero. */
  lemma {:induction false} DecimalReadsBack(n: nat)
    ensures Parsed(Decimal(n)) == n && forall c :: c in Decimal(n) ==> '0' <= c <= '9'
    ensures n > 0 ==> Decimal(n)[0] != '0'
  {
    DigitValue(n % 10);
    if n < 10 {
      assert [Digit(n)][..0] == "";
    } else {
      DecimalReadsBack(n / 10);
      assert Decimal(n)[..|Decimal(n)| - 1] == Decimal(n / 10);
    }
  }

  lemma DigitValue(d: nat)
    requires d < 10
    ensures Digit(d) as int == '0' as int + d
  {
    assert d in {0, 1, 2, 3, 4, 5, 6, 7, 8, 9};
  }

  lemma FormatIntSign(n: int)
    ensures FormatInt(n)[0] == '-' <==> n < 0
  {
    if n >= 0 {
      assert Decimal(n)[0] in Decimal(n);
    }
  }

  lemma FormatIntInjective(a: int, b: int)
    requires FormatInt(a) == FormatInt(b)
    ensures a == b
  {
    FormatIntSign(a);
    FormatIntSign(b);
    if a < 0 {
      assert FormatInt(a)[1..] == Decimal(-a) && FormatInt(b)[1..] == Decimal(-b);
      DecimalInjective(-a, -b);
    } else {
      DecimalInjective(a, b);
    }
  }

  /** A piece with no `sep` in it is determined by the text that follows the last `sep`. */
  lemma LastPiece(s: string, t: string, u: string, v: string, sep: char)
    requires sep !in t && sep !in v
    requires s + [sep] + t == u + [sep] + v
    ensures s == u && t == v
  {
    var whole := s + [sep] + t;
    assert whole[|s|] == sep && whole[|u|] == sep;
    assert forall k :: |s| < k < |whole| ==> whole[k] == t[k - |s| - 1];
    assert forall k :: |u| < k < |whole| ==> whole[k] == v[k - |u| - 1];
    assert whole[..|s|] == s && whole[..|u|] == u;
    assert whole[|s| + 1..] == t && whole[|u| + 1..] == v;
  }

  /** A piece with no `sep` in it is determined by the text before the first `sep`. */
  lemma FirstPiece(s: string, t: string, u: string, v: string, sep: char)
    requires sep !in s && sep !in u
    requires s + [sep] + t == u + [sep] + v
    ensures s == u && t == v
  {
    var whole := s + [sep] + t;
    assert whole[|s|] == sep && whole[|u|] == sep;
    assert forall k :: 0 <= k < |s| ==> whole[k] == s[k];
    assert forall k :: 0 <= k < |u| ==> whole[k] == u[k];
    assert whole[..|s|] == s && whole[..|u|] == u;
    assert whole[|s| + 1..] == t && whole[|u| + 1..] == v;
  }
}
