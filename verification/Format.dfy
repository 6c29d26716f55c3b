/** Numbers with thousands separators (log/format.go). */
module Formats {
  import opened Decimals

  const TWO63: int := 0x8000_0000_0000_0000
  const TWO64: int := 0x1_0000_0000_0000_0000

  type uint64 = n: nat | n < TWO64
  type int64 = n: int | -TWO63 <= n < TWO63

  /** Go's conversion of an integer to int64: two's complement wrap-around. */
  function ToInt64(n: int): (r: int64) {
    (n + TWO63) % TWO64 - TWO63
  }

  function ToUint64(n: int): (r: uint64) {
    n % TWO64
  }

  /** The uint64 behind a negated int64 is its magnitude, for the minimum too, which negates to itself. */
  lemma NegationWraps(n: int64)
    ensures n < 0 ==> ToUint64(ToInt64(-(n as int))) == -(n as int)
    ensures n >= 0 ==> ToUint64(n) == n
    ensures ToInt64(-(-TWO63)) == -TWO63
  {
  }

  // ---- what a grouped numeral looks like ----

  /** Digits in groups of three from the right, separated by commas. */
  function Grouped(s: string): string {
    if |s| <= 3 then s else Grouped(s[..|s| - 3]) + "," + s[|s| - 3..]
  }

  /** The text of an integer: plain up to five digits, grouped from six on. */
  function Shown(n: int): string {
    if n < 0 then "-" + Magnitude(-n) else Magnitude(n)
  }

  function Magnitude(n: nat): string {
    if n < 100000 then Dec(n) else Grouped(Dec(n))
  }

  function Stripped(s: string): string {
    if s == "" then "" else Stripped(s[..|s| - 1]) + (if s[|s| - 1] == ',' then "" else [s[|s| - 1]])
  }

  lemma {:induction false} GroupedLength(s: string)
    requires s != ""
    ensures |Grouped(s)| == |s| + (|s| - 1) / 3
  {
    if |s| > 3 {
      GroupedLength(s[..|s| - 3]);
    }
  }

  /** Commas stand exactly at every fourth place from the right, and never in front. */
  lemma {:induction false} CommaPlaces(s: string, k: nat)
    requires AllDigits(s) && k < |Grouped(s)|
    ensures Grouped(s)[k] == ',' <==> (|Grouped(s)| - 1 - k) % 4 == 3
    ensures k == 0 ==> IsDigit(Grouped(s)[k])
  {
    if |s| > 3 {
      var front := Grouped(s[..|s| - 3]);
      if k < |front| {
        CommaPlaces(s[..|s| - 3], k);
      }
      GroupedLength(s[..|s| - 3]);
    }
  }

  lemma {:induction false} StrippedConcat(s: string, t: string)
    ensures Stripped(s + t) == Stripped(s) + Stripped(t)
    decreases |t|
  {
    if t == "" {
      assert s + t == s;
    } else {
      StrippedConcat(s, t[..|t| - 1]);
      assert (s + t)[..|s + t| - 1] == s + t[..|t| - 1];
    }
  }

  lemma {:induction false} StrippedDigits(s: string)
    requires AllDigits(s)
    ensures Stripped(s) == s
  {
    if s != "" {
      StrippedDigits(s[..|s| - 1]);
    }
  }

  lemma StrippedOne(c: char)
    ensures Stripped([c]) == if c == ',' then "" else [c]
  {
    assert [c][..0] == "";
  }

  /** Taking the commas out again gives the digits back. */
  lemma {:induction false} GroupedStripped(s: string)
    requires AllDigits(s)
    ensures Stripped(Grouped(s)) == s
  {
    hide Stripped;
    if |s| <= 3 {
      StrippedDigits(s);
    } else {
      var front, last := s[..|s| - 3], s[|s| - 3..];
      GroupedStripped(front);
      StrippedConcat(Grouped(front) + ",", last);
      StrippedConcat(Grouped(front), ",");
      StrippedOne(',');
      StrippedDigits(last);
      assert front + last == s;
    }
  }

  /** Without its commas, the text is the signed decimal numeral. */
  lemma ShownStripped(n: int)
    ensures Stripped(Shown(n)) == if n < 0 then "-" + Dec(-n) else Dec(n)
  {
    hide Grouped, Dec, Stripped;
    var m: nat := if n < 0 then -n else n;
    DecDigits(m);
    GroupedStripped(Dec(m));
    StrippedDigits(Dec(m));
    StrippedConcat("-", Magnitude(m));
    StrippedOne('-');
  }

  /** The text determines the number. */
  lemma ShownInjective(m: int, n: int)
    requires Shown(m) == Shown(n)
    ensures m == n
  {
    ShownStripped(m);
    ShownStripped(n);
    var p: nat := if m < 0 then -m else m;
    var q: nat := if n < 0 then -n else n;
    DecDigits(p);
    DecDigits(q);
    var s, t := Stripped(Shown(m)), Stripped(Shown(n));
    assert s[0] == '-' <==> m < 0;
    assert t[0] == '-' <==> n < 0;
    assert Dec(p) == (if m < 0 then s[1..] else s);
    assert Dec(q) == (if n < 0 then t[1..] else t);
    ValueOfDec(p);
    ValueOfDec(q);
  }

  /** No comma next to the sign. */
  lemma SignAlone(n: int)
    requires n < 0
    ensures |Shown(n)| >= 2 && Shown(n)[0] == '-' && IsDigit(Shown(n)[1])
  {
    DecDigits(-n);
    GroupedLength(Dec(-n));
    CommaPlaces(Dec(-n), 0);
  }

  /** From six digits on, commas stand exactly at every fourth place from the right. */
  lemma ShownCommas(n: int, k: nat)
    requires k < |Shown(n)|
    ensures (Shown(n)[k] == ',' <==>
      (n <= -100000 || n >= 100000) && (|Shown(n)| - 1 - k) % 4 == 3 && !(n < 0 && k == 0))
  {
    hide Grouped, Dec;
    var m: nat := if n < 0 then -n else n;
    DecDigits(m);
    if n < 0 && k > 0 {
      if m >= 100000 { CommaPlaces(Dec(m), k - 1); }
    } else if n >= 0 && m >= 100000 {
      CommaPlaces(Dec(m), k);
    }
  }

  /** Six groups need twenty digits: the only lengths that fill 26 bytes. */
  lemma MagnitudeLength(n: nat)
    ensures n < Pow10(20) ==> |Magnitude(n)| <= 26
    ensures n < Pow10(19) ==> |Magnitude(n)| <= 25
    ensures Pow10(18) <= n < Pow10(19) ==> |Magnitude(n)| == 25
    ensures Pow10(19) <= n < Pow10(20) ==> |Magnitude(n)| == 26
    ensures n < Pow10(18) ==> |Magnitude(n)| <= 23
  {
    hide Pow10;
    DecDigits(n);
    DecLength(n, 18);
    DecLength(n, 19);
    DecLength(n, 20);
    Powers();
    if n >= 100000 {
      GroupedLength(Dec(n));
    } else {
      DecLength(n, 5);
    }
  }

  lemma Powers()
    ensures Pow10(5) == 100000
    ensures Pow10(18) == 1_000_000_000_000_000_000
    ensures Pow10(19) == 10_000_000_000_000_000_000
    ensures Pow10(20) == 100_000_000_000_000_000_000
  {
    assert Pow10(5) == 100000;
    assert Pow10(10) == 100000 * Pow10(5);
    assert Pow10(15) == 100000 * Pow10(10);
    assert Pow10(18) == 1000 * Pow10(15);
  }

  // ---- the text from the right, as the loops write it ----

  /** What is written to the left of `comma` digits that no comma follows yet. */
  function Spread(s: string, comma: nat): string
    requires comma <= 3
    decreases |s|, comma
  {
    if s == "" then ""
    else if comma == 3 then Spread(s, 0) + ","
    else Spread(s[..|s| - 1], comma + 1) + [s[|s| - 1]]
  }

  lemma {:induction false} SpreadIsGrouped(s: string)
    ensures Spread(s, 0) == Grouped(s)
  {
    if |s| > 3 {
      SpreadIsGrouped(s[..|s| - 3]);
      SpreadThree(s);
    } else if s != "" {
      SpreadStep(s, 0);
      if |s| > 1 {
        SpreadStep(s[..|s| - 1], 1);
        if |s| > 2 {
          SpreadStep(s[..|s| - 2], 2);
        }
      }
    }
  }

  lemma SpreadThree(s: string)
    requires |s| > 3
    ensures Spread(s, 0) == Spread(s[..|s| - 3], 0) + "," + s[|s| - 3..]
  {
    hide Spread;
    var c, x, y, z := s[..|s| - 3], s[|s| - 3], s[|s| - 2], s[|s| - 1];
    Append3(c, x, y, z);
    assert s[|s| - 3..] == [x, y, z];
    assert s == c + s[|s| - 3..];
    SpreadFour(c, x, y, z);
    Append3(Spread(c, 0) + ",", x, y, z);
  }

  lemma SpreadFour(c: string, x: char, y: char, z: char)
    requires c != ""
    ensures Spread(c + [x] + [y] + [z], 0) == Spread(c, 0) + "," + [x] + [y] + [z]
  {
    hide Spread;
    SpreadSnoc(c + [x] + [y], z, 0);
    SpreadSnoc(c + [x], y, 1);
    SpreadSnoc(c, x, 2);
    SpreadStep(c, 0);
  }

  lemma SpreadSnoc(p: string, x: char, comma: nat)
    requires comma < 3
    ensures Spread(p + [x], comma) == Spread(p, comma + 1) + [x]
  {
    assert (p + [x])[..|p|] == p;
  }

  lemma Append3<T>(p: seq<T>, x: T, y: T, z: T)
    ensures p + [x] + [y] + [z] == p + [x, y, z]
  {
  }

  lemma Regroup<T>(a: seq<T>, b: seq<T>, c: seq<T>)
    ensures a + b + c == a + (b + c)
  {
  }

  lemma SpreadStep(s: string, comma: nat)
    requires s != "" && comma < 3
    ensures Spread(s, comma) == Spread(s[..|s| - 1], comma + 1) + [s[|s| - 1]]
    ensures comma == 0 ==> Spread(s, 3) == Spread(s, 0) + ","
    ensures s[..|s| - 1] == "" ==> Spread(s[..|s| - 1], comma + 1) == ""
    ensures |s| > 1 ==> s[..|s| - 1][..|s| - 2] == s[..|s| - 2]
  {
  }

  function Rest(n: nat): string {
    if n == 0 then "" else Dec(n)
  }

  datatype Outcome = Text(text: string) | Panic

  function Signed(n: int, neg: bool): int {
    if neg then -n else n
  }

  /** The decimal text of strconv.AppendInt. */
  function Plain(n: int): string {
    if n < 0 then "-" + Dec(-n) else Dec(n)
  }

  /** Writes the digits and commas of n into the back of `out`; `i` is the last free index. */
  method FillDigits(n0: uint64, out: array<char>) returns (i: int)
    requires n0 > 0 && out.Length == 26
    modifies out
    ensures -1 <= i < 26 && out[i + 1..] == Grouped(Dec(n0))
  {
    hide Spread, Dec, Grouped, Rest;
    var n: int := n0;
    i := out.Length - 1;
    var comma := 0;
    SpreadIsGrouped(Dec(n0));
    RestStart(n0);
    FitsBuffer(n0);
    while n > 0
      invariant 0 <= comma <= 3 && 0 <= n <= n0
      invariant -1 <= i < out.Length
      invariant Spread(Rest(n), comma) + out[i + 1..] == Grouped(Dec(n0))
      decreases n, comma
    {
      SpreadDigit(n, comma);
      if comma == 3 {
        Regroup(Spread(Rest(n), 0), ",", out[i + 1..]);
        comma := 0;
        Put(',', out, i);
      } else {
        Regroup(Spread(Rest(n / 10), comma + 1), [Digit(n % 10)], out[i + 1..]);
        comma := comma + 1;
        Put(Digit(n % 10), out, i);
        n := n / 10;
      }
      i := i - 1;
    }
    NothingSpread(comma);
    NoRest();
  }

  lemma NoRest()
    ensures Rest(0) == ""
  {
  }

  lemma RestStart(n: nat)
    requires n > 0
    ensures Rest(n) == Dec(n)
  {
  }

  lemma SpreadDigit(n: nat, comma: nat)
    requires n > 0 && comma <= 3
    ensures comma == 3 ==> Spread(Rest(n), comma) == Spread(Rest(n), 0) + ","
    ensures comma < 3 ==> Spread(Rest(n), comma) == Spread(Rest(n / 10), comma + 1) + [Digit(n % 10)]
  {
    DecDigits(n);
    if n >= 10 {
      assert Dec(n)[..|Dec(n)| - 1] == Dec(n / 10);
    }
  }

  lemma FitsBuffer(n: uint64)
    ensures n > 0 ==> |Grouped(Dec(n))| <= 26
    ensures n < 10_000_000_000_000_000_000 && n > 0 ==> |Grouped(Dec(n))| <= 25
    ensures n >= 10_000_000_000_000_000_000 ==> |Grouped(Dec(n))| == 26
  {
    hide Pow10;
    Powers();
    DecDigits(n);
    DecLength(n, 19);
    DecLength(n, 20);
    GroupedLength(Dec(n));
  }

  /** The 26-byte buffer underflows exactly for a sign in front of twenty digits. */
  method AppendUint64(dst: string, n: uint64, neg: bool) returns (r: Outcome)
    ensures r.Panic? <==> neg && n >= 10_000_000_000_000_000_000
    ensures r.Text? ==> r.text == dst + Shown(Signed(n, neg))
  {
    hide Grouped, Dec;
    if n < 100000 {
      SmallUint64(n);
      return Text(dst + Plain(Signed(ToInt64(n), neg)));
    }
    r := AppendLarge(dst, n, neg);
  }

  lemma SmallUint64(n: uint64)
    requires n < 100000
    ensures ToInt64(n) == n
  {
  }

  /** Large numbers go through a buffer of 26 bytes. */
  method AppendLarge(dst: string, n: uint64, neg: bool) returns (r: Outcome)
    requires n >= 100000
    ensures r.Panic? <==> neg && n >= 10_000_000_000_000_000_000
    ensures r.Text? ==> r.text == dst + Shown(Signed(n, neg))
  {
    hide Grouped, Dec;
    var out := new char[26];
    FitsBuffer(n);
    var i := FillDigits(n, out);
    if neg {
      if i < 0 {
        return Panic;
      }
      ghost var done := out[i + 1..];
      out[i] := '-';
      assert out[i..] == "-" + done;
      i := i - 1;
    }
    r := Text(dst + out[i + 1..]);
  }

  /** Every int64 has its text, the minimum included, whose negation wraps to itself. */
  method AppendInt64(dst: string, n: int64) returns (r: Outcome)
    ensures r == Text(dst + Shown(n))
  {
    hide ToUint64, ToInt64, Shown;
    NegationWraps(n);
    if n < 0 {
      r := AppendUint64(dst, ToUint64(ToInt64(Signed(n, true))), true);
    } else {
      r := AppendUint64(dst, ToUint64(n), false);
    }
  }

  /** The longest texts, the only ones to fill all 26 bytes: twenty digits, or a sign and nineteen. */
  lemma BufferTight(n: int)
    requires -TWO63 <= n < TWO64
    ensures |Shown(n)| <= 26
    ensures |Shown(n)| == 26 <==> n <= -1_000_000_000_000_000_000 || n >= 10_000_000_000_000_000_000
  {
    hide Pow10;
    Powers();
    MagnitudeLength(if n < 0 then -n else n);
  }

  /** What the second loop still has to write for the front part p of the text. */
  function Unwritten(p: string, comma: nat): string
    requires comma <= 3
  {
    if p != "" && p[0] == '-' then "-" + Spread(p[1..], comma) else Spread(p, comma)
  }

  predicate SignedDigits(p: string) {
    forall k :: 0 <= k < |p| ==> IsDigit(p[k]) || (k == 0 && p[k] == '-')
  }

  lemma SignedFront(p: string, k: nat)
    requires SignedDigits(p) && k <= |p|
    ensures SignedDigits(p[..k])
  {
  }

  /** What goes into the buffer for a character c with `comma` digits to its right since the last comma. */
  function Written(c: char, comma: nat): string {
    if c != '-' && comma == 3 then [c, ','] else [c]
  }

  function NextComma(c: char, comma: nat): nat {
    if c == '-' then comma else if comma == 3 then 1 else comma + 1
  }

  lemma NothingSpread(comma: nat)
    requires comma <= 3
    ensures Spread("", comma) == ""
  {
  }

  lemma UnwrittenStep(p: string, comma: nat)
    requires SignedDigits(p) && p != "" && comma <= 3
    ensures NextComma(p[|p| - 1], comma) <= 3
    ensures Unwritten(p, comma) == Unwritten(p[..|p| - 1], NextComma(p[|p| - 1], comma)) + Written(p[|p| - 1], comma)
  {
    hide Spread;
    var s := if p[0] == '-' then p[1..] else p;
    NothingSpread(comma);
    NothingSpread(NextComma(p[|p| - 1], comma));
    if s != "" {
      assert s[|s| - 1] == p[|p| - 1];
      SpreadStep(s, if comma == 3 then 0 else comma);
      Regroup(Spread(s[..|s| - 1], 1), [s[|s| - 1]], ",");
      assert [s[|s| - 1]] + "," == [s[|s| - 1], ','];
      if p[0] == '-' {
        assert p[..|p| - 1][0] == '-';
        assert s[..|s| - 1] == p[..|p| - 1][1..];
      } else {
        assert p[..|p| - 1] != "" ==> p[..|p| - 1][0] == p[0];
      }
    }
  }

  lemma PlainSigned(n: int)
    ensures SignedDigits(Plain(n))
    ensures Unwritten(Plain(n), 0) == if n < 0 then "-" + Grouped(Dec(-n)) else Grouped(Dec(n))
    ensures |Unwritten(Plain(n), 0)| <= |Plain(n)| + |Plain(n)| / 3
  {
    var m: nat := if n < 0 then -n else n;
    DecDigits(m);
    SpreadIsGrouped(Dec(m));
    GroupedLength(Dec(m));
    assert ("-" + Dec(m))[1..] == Dec(m);
  }

  /** Writes a signed numeral into the back of `buf`, a comma before every fourth digit from the right. */
  method FillText(text: string, buf: array<char>) returns (i: int)
    requires SignedDigits(text) && |Unwritten(text, 0)| <= buf.Length
    modifies buf
    ensures -1 <= i < buf.Length
    ensures buf[i + 1..] == Unwritten(text, 0)
  {
    hide Unwritten, SignedDigits;
    i := buf.Length - 1;
    var comma := 0;
    var j := |text| - 1;
    assert text[..j + 1] == text;
    while j >= 0
      invariant -1 <= j < |text| && 0 <= comma <= 3
      invariant -1 <= i < buf.Length
      invariant Unwritten(text[..j + 1], comma) + buf[i + 1..] == Unwritten(text, 0)
      decreases j
    {
      SignedFront(text, j + 1);
      FrontOfFront(text, j);
      i, comma := FillChar(text[j], text[..j + 1], comma, buf, i);
      j := j - 1;
    }
    NothingUnwritten(comma);
    assert text[..j + 1] == "";
  }

  /** Moves the last character of what is unwritten from `p` to the buffer. */
  method FillChar(c: char, ghost p: string, comma: nat, buf: array<char>, i: int) returns (i': int, comma': nat)
    requires SignedDigits(p) && p != "" && p[|p| - 1] == c && comma <= 3 && -1 <= i < buf.Length
    requires |Unwritten(p, comma)| <= i + 1
    modifies buf
    ensures -1 <= i' < buf.Length && comma' <= 3
    ensures Unwritten(p[..|p| - 1], comma') + buf[i' + 1..] == old(Unwritten(p, comma) + buf[i + 1..])
  {
    hide Unwritten, SignedDigits, Written, NextComma;
    UnwrittenStep(p, comma);
    ghost var rest := Unwritten(p[..|p| - 1], NextComma(c, comma));
    Regroup(rest, Written(c, comma), buf[i + 1..]);
    i', comma' := PutChar(c, comma, buf, i);
  }

  /** Writes one character, after a comma if three digits stand to its right. */
  method PutChar(c: char, comma: nat, buf: array<char>, i: int) returns (i': int, comma': nat)
    requires comma <= 3 && i < buf.Length && |Written(c, comma)| <= i + 1
    modifies buf
    ensures i' == i - |Written(c, comma)| && comma' == NextComma(c, comma)
    ensures buf[i' + 1..] == Written(c, comma) + old(buf[i + 1..])
  {
    hide Written, NextComma;
    WrittenCases(c, comma, buf[i + 1..]);
    i', comma' := i, comma;
    if c == '-' {
      Put(c, buf, i');
    } else {
      if comma' == 3 {
        Put(',', buf, i');
        i' := i' - 1;
        comma' := 0;
      }
      Put(c, buf, i');
      comma' := comma' + 1;
    }
    i' := i' - 1;
  }

  lemma WrittenCases(c: char, comma: nat, done: string)
    requires comma <= 3
    ensures c == '-' ==> NextComma(c, comma) == comma
    ensures c != '-' ==> NextComma(c, comma) == if comma == 3 then 1 else comma + 1
    ensures c == '-' || comma < 3 ==> Written(c, comma) == [c]
    ensures c != '-' && comma == 3 ==> |Written(c, comma)| == 2 && [c] + ([','] + done) == Written(c, comma) + done
  {
  }

  method Put(c: char, buf: array<char>, i: int)
    requires 0 <= i < buf.Length
    modifies buf
    ensures buf[i..] == [c] + old(buf[i + 1..])
  {
    buf[i] := c;
  }

  lemma FrontOfFront(s: string, j: nat)
    requires j < |s|
    ensures s[..j + 1][..j] == s[..j] && s[..j + 1][j] == s[j] && |s[..j + 1]| == j + 1
  {
  }

  lemma NothingUnwritten(comma: nat)
    requires comma <= 3
    ensures Unwritten("", comma) == ""
  {
  }

  /** Arbitrarily large integers get the same form. */
  method AppendBigInt(dst: string, n: int) returns (r: Outcome)
    ensures r == Text(dst + Shown(n))
  {
    if 0 <= n < TWO64 {
      r := AppendUint64(dst, n, false);
      return;
    }
    if -TWO63 <= n < TWO63 {
      r := AppendInt64(dst, n);
      return;
    }
    hide Unwritten, Plain, Dec, Grouped, Shown, SignedDigits;
    var text := Plain(n);
    // long enough for every integer
    var buf := new char[|text| + |text| / 3];
    PlainSigned(n);
    var i := FillText(text, buf);
    UnwrittenIsShown(n);
    r := Text(dst + buf[i + 1..]);
  }

  lemma UnwrittenIsShown(n: int)
    requires n <= -100000 || n >= 100000
    ensures Unwritten(Plain(n), 0) == Shown(n)
  {
    hide Unwritten, Plain, Dec, Grouped;
    PlainSigned(n);
  }
}
