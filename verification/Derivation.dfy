/** Hierarchical deterministic wallet paths (accounts/hd.go). */
module Derivations {
  import opened Decimals

  const HARD: int := 0x8000_0000
  const MAX: int := 0xFFFF_FFFF

  type uint32 = n: int | 0 <= n <= 0xFFFF_FFFF
  type Path = seq<uint32>

  const DEFAULT_ROOT_DERIVATION_PATH: Path := [HARD + 44, HARD + 60, HARD + 0, 0]

  datatype Error = Ambiguous | Empty | InvalidComponent | OutOfRange
  datatype Result<T> = Ok(value: T) | Err(error: Error)

  // ---- strings.Split, strings.TrimSpace and big.Int.SetString with base 0 ----

  function Split(s: string): (parts: seq<string>)
    ensures parts != []
  {
    if s == "" then [""]
    else if s[0] == '/' then [""] + Split(s[1..])
    else var rest := Split(s[1..]); [[s[0]] + rest[0]] + rest[1..]
  }

  predicate IsSpace(c: char) {
    '\t' <= c <= '\r' || c == ' ' || c == '\U{85}' || c == '\U{A0}' || c == '\U{1680}' ||
    '\U{2000}' <= c <= '\U{200A}' || c == '\U{2028}' || c == '\U{2029}' || c == '\U{202F}' || c == '\U{205F}'
      || c == '\U{3000}'
  }

  function TrimLeft(s: string): string {
    if s != "" && IsSpace(s[0]) then TrimLeft(s[1..]) else s
  }

  function TrimRight(s: string): string {
    if s != "" && IsSpace(s[|s| - 1]) then TrimRight(s[..|s| - 1]) else s
  }

  function TrimSpace(s: string): string {
    TrimRight(TrimLeft(s))
  }

  function DigitOf(c: char): nat {
    if '0' <= c <= '9' then (c - '0') as nat
    else if 'a' <= c <= 'z' then (c - 'a') as nat + 10
    else if 'A' <= c <= 'Z' then (c - 'A') as nat + 10
    else 63
  }

  function Shifted(acc: nat, base: nat, c: char): nat {
    acc * base + DigitOf(c)
  }

  /** Digits of a base, where an underscore may follow a digit or a base prefix and must precede a digit. */
  function Scan(s: string, base: nat, separable: bool, acc: nat): Result<nat> {
    if s == "" then (if separable then Ok(acc) else Err(InvalidComponent))
    else if s[0] == '_' then (if separable then Scan(s[1..], base, false, acc) else Err(InvalidComponent))
    else if DigitOf(s[0]) < base then Scan(s[1..], base, true, Shifted(acc, base, s[0]))
    else Err(InvalidComponent)
  }

  function Unsigned(s: string): Result<nat> {
    if |s| < 2 || s[0] != '0' then Scan(s, 10, false, 0)
    else if s[1] !in "bBoOxX" then Scan(s[1..], 8, true, 0)
    else if |s| == 2 then Err(InvalidComponent)
    else Scan(s[2..], if s[1] in "bB" then 2 else if s[1] in "oO" then 8 else 16, true, 0)
  }

  function Numeral(s: string): Result<int> {
    if s != "" && (s[0] == '-' || s[0] == '+') then
      match Unsigned(s[1..])
      case Ok(n) => Ok(if s[0] == '-' then 0 - (n as int) else n as int)
      case Err(e) => Err(e)
    else
      match Unsigned(s)
      case Ok(n) => Ok(n)
      case Err(e) => Err(e)
  }

  // ---- one component ----

  predicate HasQuote(s: string) {
    s != "" && s[|s| - 1] == '\''
  }

  function Component(text: string): Result<uint32> {
    var c := TrimSpace(text);
    var hard := HasQuote(c);
    var base := if hard then HARD else 0;
    match Numeral(if hard then TrimSpace(c[..|c| - 1]) else c)
    case Err(e) => Err(e)
    case Ok(n) => if n < 0 || n > MAX - base then Err(OutOfRange) else Ok(base + n)
  }

  function Components(parts: seq<string>): Result<Path> {
    if parts == [] then Ok([]) else
      match Components(parts[..|parts| - 1])
      case Err(e) => Err(e)
      case Ok(path) =>
        match Component(parts[|parts| - 1])
        case Err(e) => Err(e)
        case Ok(c) => Ok(path + [c])
  }

  /** The meaning of a path text. */
  function Parsed(text: string): Result<Path> {
    var parts := Split(text);
    var first := TrimSpace(parts[0]);
    if first == "" then Err(Ambiguous)
    else if first == "m" then
      if |parts| == 1 then Err(Empty) else Components(parts[1..])
    else
      match Components(parts)
      case Err(e) => Err(e)
      case Ok(path) => Ok(DEFAULT_ROOT_DERIVATION_PATH + path)
  }

  function ComponentText(c: uint32): string {
    if c >= HARD then Dec(c - HARD) + "'" else Dec(c)
  }

  function Printed(path: Path): string {
    if path == [] then "m" else Printed(path[..|path| - 1]) + "/" + ComponentText(path[|path| - 1])
  }

  // ---- the code ----

  method ParseDerivationPath(path: string) returns (r: Result<Path>)
    ensures r == Parsed(path)
  {
    var result: Path := [];
    var components := Split(path);
    var first := TrimSpace(components[0]);
    if first == "" {
      return Err(Ambiguous);
    } else if first == "m" {
      components := components[1..];
    } else {
      result := DEFAULT_ROOT_DERIVATION_PATH;
    }
    if |components| == 0 {
      return Err(Empty);
    }
    ghost var root := result;
    hide Components, Component, Numeral, HasQuote, TrimSpace, Split;
    NoComponents();
    assert components[..0] == [];
    for i := 0 to |components|
      invariant Components(components[..i]).Ok? && result == root + Components(components[..i]).value
    {
      ComponentsStep(components, i);
      var value := ParseComponent(components[i]);
      if value.Err? {
        ComponentsFail(components, i + 1);
        return Err(value.error);
      }
      result := result + [value.value];
    }
    assert components[..|components|] == components;
    assert root == [] ==> result == Components(components).value;
    r := Ok(result);
  }

  method ParseComponent(text: string) returns (r: Result<uint32>)
    ensures r == Component(text)
  {
    var component := TrimSpace(text);
    var value := 0;
    if HasQuote(component) {
      value := HARD;
      component := TrimSpace(component[..|component| - 1]);
    }
    var bigval := Numeral(component);
    if bigval.Err? {
      return Err(bigval.error);
    }
    var max := MAX - value;
    if bigval.value < 0 || bigval.value > max {
      return Err(OutOfRange);
    }
    value := value + bigval.value;
    r := Ok(value);
  }

  method String(path: Path) returns (result: string)
    ensures result == Printed(path)
  {
    result := "m";
    for i := 0 to |path|
      invariant result == Printed(path[..i])
    {
      var component := path[i];
      var hardened := false;
      if component >= HARD {
        component := component - HARD;
        hardened := true;
      }
      result := result + "/" + Dec(component);
      if hardened {
        result := result + "'";
      }
      PrintedStep(path, i);
    }
    assert path[..|path|] == path;
  }

  // ---- proof support ----

  lemma NoComponents()
    ensures Components([]) == Ok([])
  {
  }

  lemma PrintedStep(path: Path, i: nat)
    requires i < |path|
    ensures Printed(path[..i + 1]) == Printed(path[..i]) + "/" + ComponentText(path[i])
  {
    assert path[..i + 1][..i] == path[..i];
  }

  lemma ComponentsStep(parts: seq<string>, i: nat)
    requires i < |parts| && Components(parts[..i]).Ok?
    ensures Component(parts[i]).Err? ==> Components(parts[..i + 1]) == Err(Component(parts[i]).error)
    ensures Component(parts[i]).Ok? ==>
      Components(parts[..i + 1]) == Ok(Components(parts[..i]).value + [Component(parts[i]).value])
  {
    assert parts[..i + 1][..i] == parts[..i];
  }

  lemma {:induction false} ComponentsFail(parts: seq<string>, i: nat)
    requires i <= |parts| && Components(parts[..i]).Err?
    ensures Components(parts) == Err(Components(parts[..i]).error)
    decreases |parts|
  {
    if i < |parts| {
      assert parts[..|parts| - 1][..i] == parts[..i];
      ComponentsFail(parts[..|parts| - 1], i);
    } else {
      assert parts[..i] == parts;
    }
  }

  lemma {:induction false} ComponentsConcat(a: seq<string>, b: seq<string>)
    requires Components(a).Ok?
    ensures Components(b).Err? ==> Components(a + b) == Err(Components(b).error)
    ensures Components(b).Ok? ==> Components(a + b) == Ok(Components(a).value + Components(b).value)
    decreases |b|
  {
    if b == [] {
      assert a + b == a;
      assert Components(a).value + [] == Components(a).value;
    } else {
      hide Components, Component;
      ComponentsConcat(a, b[..|b| - 1]);
      ComponentsLast(a + b);
      ComponentsLast(b);
      assert (a + b)[..|a + b| - 1] == a + b[..|b| - 1] && (a + b)[|a + b| - 1] == b[|b| - 1];
      if Components(b).Ok? {
        var front, last := Components(b[..|b| - 1]).value, Component(b[|b| - 1]).value;
        assert Components(a).value + front + [last] == Components(a).value + (front + [last]);
      }
    }
  }

  lemma ComponentsLast(parts: seq<string>)
    requires parts != []
    ensures var front := Components(parts[..|parts| - 1]);
      var last := Component(parts[|parts| - 1]);
      Components(parts) ==
        if front.Err? then front else if last.Err? then Err(last.error) else Ok(front.value + [last.value])
  {
  }

  lemma SplitStep(s: string)
    ensures s == "" ==> Split(s) == [""]
    ensures s != "" && s[0] == '/' ==> Split(s) == [""] + Split(s[1..])
    ensures s != "" && s[0] != '/' ==> Split(s) == [[s[0]] + Split(s[1..])[0]] + Split(s[1..])[1..]
  {
  }

  /** Splitting at a slash between two texts splits each of them. */
  lemma {:induction false} SplitConcat(s: string, t: string)
    ensures Split(s + "/" + t) == Split(s) + Split(t)
  {
    hide Split;
    var whole := s + "/" + t;
    SplitStep(s);
    SplitStep(whole);
    if s == "" {
      assert whole[0] == '/' && whole[1..] == t;
    } else {
      SplitConcat(s[1..], t);
      assert whole[1..] == s[1..] + "/" + t;
      ghost var a, b := Split(s[1..]), Split(t);
      assert (a + b)[1..] == a[1..] + b && (a + b)[0] == a[0];
    }
  }

  lemma {:induction false} SplitPlain(s: string)
    requires '/' !in s
    ensures Split(s) == [s]
  {
    if s != "" {
      SplitPlain(s[1..]);
      assert [s[0]] + s[1..] == s;
    }
  }

  // ---- what printing and parsing promise ----

  /** A decimal numeral scans to its number; a number that is not zero does not start with the octal prefix. */
  lemma {:induction false} ScanSnoc(s: string, c: char, base: nat, separable: bool, acc: nat)
    requires c != '_' && DigitOf(c) < base && Scan(s, base, separable, acc).Ok?
    ensures Scan(s + [c], base, separable, acc) == Ok(Shifted(Scan(s, base, separable, acc).value, base, c))
  {
    hide Shifted, DigitOf;
    if s == "" {
      assert s + [c] == [c] && [c][1..] == "";
    } else {
      assert (s + [c])[1..] == s[1..] + [c];
      if s[0] == '_' {
        ScanSnoc(s[1..], c, base, false, acc);
      } else {
        ScanSnoc(s[1..], c, base, true, Shifted(acc, base, s[0]));
      }
    }
  }

  lemma {:induction false} NumeralOfDec(n: nat)
    ensures Numeral(Dec(n)) == Ok(n)
  {
    ScanDec(n);
    DecDigits(n);
  }

  lemma {:induction false} ScanDec(n: nat)
    ensures Scan(Dec(n), 10, false, 0) == Ok(n)
  {
    if n >= 10 {
      ScanDec(n / 10);
      ScanSnoc(Dec(n / 10), Digit(n % 10), 10, false, 0);
    }
  }

  /** Every component survives printing and parsing, hardened or not. */
  lemma ComponentRoundTrip(c: uint32)
    ensures Component(ComponentText(c)) == Ok(c)
    ensures '/' !in ComponentText(c)
  {
    var n := if c >= HARD then c - HARD else c;
    DecDigits(n);
    NumeralOfDec(n);
    assert ComponentText(c)[..|Dec(n)|] == Dec(n);
  }

  lemma {:induction false} SplitPrinted(path: Path)
    ensures |Split(Printed(path))| == |path| + 1 && Split(Printed(path))[0] == "m"
    ensures Components(Split(Printed(path))[1..]) == Ok(path)
  {
    if path == [] {
      SplitPlain("m");
    } else {
      var front, c := path[..|path| - 1], path[|path| - 1];
      SplitPrinted(front);
      SplitPrintedStep(front, c);
      assert path == front + [c];
    }
  }

  lemma ComponentsSnoc(parts: seq<string>, text: string)
    requires Components(parts).Ok? && Component(text).Ok?
    ensures Components(parts + [text]) == Ok(Components(parts).value + [Component(text).value])
  {
    hide Components, Component;
    ComponentsLast(parts + [text]);
    assert (parts + [text])[..|parts + [text]| - 1] == parts;
  }

  lemma SplitPrintedStep(front: Path, c: uint32)
    requires |Split(Printed(front))| == |front| + 1 && Split(Printed(front))[0] == "m"
    requires Components(Split(Printed(front))[1..]) == Ok(front)
    ensures Split(Printed(front + [c])) == Split(Printed(front)) + [ComponentText(c)]
    ensures Components(Split(Printed(front + [c]))[1..]) == Ok(front + [c])
  {
    hide Components, Component, ComponentText, Split, Printed;
    assert (front + [c])[..|front|] == front && (front + [c])[..|front| + 1] == front + [c];
    PrintedStep(front + [c], |front|);
    ComponentRoundTrip(c);
    SplitPlain(ComponentText(c));
    SplitConcat(Printed(front), ComponentText(c));
    var before, text := Split(Printed(front)), ComponentText(c);
    assert (before + [text])[1..] == before[1..] + [text];
    ComponentsSnoc(before[1..], text);
  }

  /** Parsing the printed form gives the path back, except for the empty path, which is refused. */
  lemma RoundTrip(path: Path)
    ensures Parsed(Printed(path)) == if path == [] then Err(Empty) else Ok(path)
  {
    SplitPrinted(path);
  }

  lemma PrintedInjective(p: Path, q: Path)
    requires Printed(p) == Printed(q)
    ensures p == q
  {
    RoundTrip(p);
    RoundTrip(q);
  }

  lemma {:induction false} ComponentsLength(parts: seq<string>)
    requires Components(parts).Ok?
    ensures |Components(parts).value| == |parts|
  {
    if parts != [] {
      ComponentsLength(parts[..|parts| - 1]);
    }
  }

  /** Printing what was parsed from any accepted text, then parsing again, gives the same path. */
  lemma PrintStable(text: string)
    requires Parsed(text).Ok?
    ensures Parsed(Printed(Parsed(text).value)) == Parsed(text)
  {
    var parts := Split(text);
    if TrimSpace(parts[0]) == "m" {
      ComponentsLength(parts[1..]);
    } else {
      ComponentsLength(parts);
    }
    RoundTrip(Parsed(text).value);
  }

  /** A relative path means the absolute path below the default root, errors included. */
  lemma RelativeIsAbsolute(text: string)
    requires TrimSpace(Split(text)[0]) != "" && TrimSpace(Split(text)[0]) != "m"
    ensures Parsed(text) == Parsed(Printed(DEFAULT_ROOT_DERIVATION_PATH) + "/" + text)
  {
    hide Printed, Split, Components, Component, ComponentText, TrimSpace;
    var root := Split(Printed(DEFAULT_ROOT_DERIVATION_PATH));
    SplitPrinted(DEFAULT_ROOT_DERIVATION_PATH);
    SplitConcat(Printed(DEFAULT_ROOT_DERIVATION_PATH), text);
    assert (root + Split(text))[1..] == root[1..] + Split(text);
    ComponentsConcat(root[1..], Split(text));
    MarkTrimmed();
  }

  lemma MarkTrimmed()
    ensures TrimSpace("m") == "m"
  {
  }

  // ---- whitespace ----

  predicate AllSpace(s: string) {
    forall k :: 0 <= k < |s| ==> IsSpace(s[k])
  }

  lemma {:induction false} TrimLeftSpaces(l: string, t: string)
    requires AllSpace(l)
    ensures TrimLeft(l + t) == TrimLeft(t)
  {
    if l == "" {
      assert l + t == t;
    } else {
      TrimLeftSpaces(l[1..], t);
      assert (l + t)[1..] == l[1..] + t;
    }
  }

  lemma {:induction false} TrimRightSpaces(t: string, r: string)
    requires AllSpace(r)
    ensures TrimRight(t + r) == TrimRight(t)
    decreases |r|
  {
    if r == "" {
      assert t + r == t;
    } else {
      TrimRightSpaces(t, r[..|r| - 1]);
      assert (t + r)[..|t + r| - 1] == t + r[..|r| - 1];
    }
  }

  lemma {:induction false} TrimLeftTail(t: string, r: string)
    requires AllSpace(r)
    ensures AllSpace(t) ==> TrimLeft(t + r) == "" && TrimLeft(t) == ""
    ensures !AllSpace(t) ==> TrimLeft(t + r) == TrimLeft(t) + r
  {
    if t == "" {
      TrimLeftSpaces(r, "");
      assert r + "" == r && t + r == r;
    } else if IsSpace(t[0]) {
      TrimLeftTail(t[1..], r);
      assert (t + r)[1..] == t[1..] + r;
    }
  }

  /** White space around a component is ignored. */
  lemma SpaceIgnored(l: string, t: string, r: string)
    requires AllSpace(l) && AllSpace(r)
    ensures TrimSpace(l + t + r) == TrimSpace(t)
    ensures Component(l + t + r) == Component(t)
  {
    hide TrimLeft, TrimRight, Component, AllSpace;
    assert l + t + r == l + (t + r);
    TrimLeftSpaces(l, t + r);
    TrimLeftTail(t, r);
    TrimRightSpaces(TrimLeft(t), r);
    SameTrimmed(l + t + r, t);
  }

  lemma SameTrimmed(s: string, t: string)
    ensures TrimSpace(s) == TrimSpace(t) ==> Component(s) == Component(t)
  {
  }

  // ---- numerals and ranges ----

  /** The positional value of digits in a base. */
  function ValueIn(base: nat, s: string): nat {
    if s == "" then 0 else base * ValueIn(base, s[..|s| - 1]) + DigitOf(s[|s| - 1])
  }

  predicate DigitsIn(base: nat, s: string) {
    s != "" && forall k :: 0 <= k < |s| ==> DigitOf(s[k]) < base
  }

  lemma {:induction false} ScanDigits(s: string, base: nat, separable: bool)
    requires DigitsIn(base, s) && base <= 36
    ensures Scan(s, base, separable, 0) == Ok(ValueIn(base, s))
  {
    var front, c := s[..|s| - 1], s[|s| - 1];
    if front == "" {
      assert s == [c] && s[1..] == "" && ValueIn(base, "") == 0;
    } else {
      ScanDigits(front, base, separable);
      ScanSnoc(front, c, base, separable, 0);
      assert s == front + [c];
    }
  }

  lemma NumeralPrefixed(s: string, mark: char)
    requires mark in "bBoOxX"
    ensures var base := if mark in "bB" then 2 else if mark in "oO" then 8 else 16;
      DigitsIn(base, s) ==> Numeral(['0', mark] + s) == Ok(ValueIn(base, s))
  {
    var base := if mark in "bB" then 2 else if mark in "oO" then 8 else 16;
    hide Scan, ValueIn;
    if DigitsIn(base, s) {
      ScanDigits(s, base, true);
      assert (['0', mark] + s)[2..] == s;
    }
  }

  lemma NumeralOctal(s: string)
    requires DigitsIn(8, s)
    ensures Numeral("0" + s) == Ok(ValueIn(8, s))
  {
    hide Scan, ValueIn;
    ScanDigits(s, 8, true);
    var t := "0" + s;
    assert t[1..] == s && t[0] == '0' && t[1] == s[0];
  }

  lemma NumeralPlain(s: string)
    requires DigitsIn(10, s) && s[0] != '0'
    ensures Numeral(s) == Ok(ValueIn(10, s))
    ensures Numeral("+" + s) == Ok(ValueIn(10, s)) && Numeral("-" + s) == Ok(-(ValueIn(10, s) as int))
  {
    hide Scan, ValueIn, DigitsIn;
    ScanDigits(s, 10, false);
    NotSigned(s);
    assert Unsigned(s) == Ok(ValueIn(10, s));
    assert ("+" + s)[1..] == s && ("-" + s)[1..] == s;
  }

  lemma NotSigned(s: string)
    requires DigitsIn(10, s)
    ensures s[0] != '+' && s[0] != '-'
  {
  }

  /** A numeral denotes its positional value: in the base its prefix names, in octal after a bare zero,
      and in decimal otherwise; a sign in front of it negates or keeps that value. */
  lemma NumeralValue(s: string)
    ensures DigitsIn(2, s) ==> Numeral("0b" + s) == Numeral("0B" + s) == Ok(ValueIn(2, s))
    ensures DigitsIn(8, s) ==> Numeral("0o" + s) == Numeral("0O" + s) == Numeral("0" + s) == Ok(ValueIn(8, s))
    ensures DigitsIn(16, s) ==> Numeral("0x" + s) == Numeral("0X" + s) == Ok(ValueIn(16, s))
    ensures DigitsIn(10, s) && s[0] != '0' ==>
      Numeral(s) == Numeral("+" + s) == Ok(ValueIn(10, s)) && Numeral("-" + s) == Ok(-(ValueIn(10, s) as int))
  {
    NumeralPrefixed(s, 'b');
    NumeralPrefixed(s, 'B');
    NumeralPrefixed(s, 'o');
    NumeralPrefixed(s, 'O');
    NumeralPrefixed(s, 'x');
    NumeralPrefixed(s, 'X');
    if DigitsIn(8, s) {
      NumeralOctal(s);
    }
    if DigitsIn(10, s) && s[0] != '0' {
      NumeralPlain(s);
    }
  }

  lemma {:induction false} ScanEnds(s: string, base: nat, separable: bool, acc: nat)
    requires base <= 16 && s != "" && Scan(s, base, separable, acc).Ok?
    ensures DigitOf(s[|s| - 1]) < 16
  {
    if |s| > 1 {
      ScanEnds(s[1..], base, s[0] != '_', if s[0] == '_' then acc else Shifted(acc, base, s[0]));
    }
  }

  /** A numeral starts with a sign or a digit and ends with a digit. */
  lemma NumeralEnds(t: string)
    requires Numeral(t).Ok?
    ensures t != "" && !IsSpace(t[0]) && !IsSpace(t[|t| - 1]) && t[|t| - 1] != '\''
  {
    var u := if t != "" && (t[0] == '-' || t[0] == '+') then t[1..] else t;
    if |u| < 2 || u[0] != '0' {
      if u != "" {
        ScanEnds(u, 10, false, 0);
      }
    } else if u[1] !in "bBoOxX" {
      ScanEnds(u[1..], 8, true, 0);
    } else if |u| > 2 {
      ScanEnds(u[2..], if u[1] in "bB" then 2 else if u[1] in "oO" then 8 else 16, true, 0);
    }
  }

  lemma Trimmed(t: string)
    requires t != "" && !IsSpace(t[0]) && !IsSpace(t[|t| - 1])
    ensures TrimSpace(t) == t
  {
    hide IsSpace;
  }

  lemma PlainComponent(t: string)
    requires Numeral(t).Ok?
    ensures var n := Numeral(t).value; Component(t) == if 0 <= n <= 0xFFFF_FFFF then Ok(n) else Err(OutOfRange)
  {
    hide Numeral, TrimSpace, IsSpace;
    NumeralEnds(t);
    Trimmed(t);
  }

  lemma QuotedComponent(t: string, gap: string)
    requires AllSpace(gap) && Numeral(t).Ok?
    ensures var n := Numeral(t).value;
      Component(t + gap + "'") == if 0 <= n <= 0x7FFF_FFFF then Ok(0x8000_0000 + n) else Err(OutOfRange)
  {
    hide Numeral, TrimSpace, AllSpace;
    var quoted := t + gap + "'";
    NumeralEnds(t);
    assert quoted[..|quoted| - 1] == t + gap && quoted[|quoted| - 1] == '\'' && quoted[0] == t[0];
    Trimmed(t);
    Trimmed(quoted);
    EmptyBlank();
    SpaceIgnored("", t, gap);
    assert "" + t + gap == t + gap;
  }

  lemma EmptyBlank()
    ensures AllSpace("")
  {
  }

  /** A component is accepted exactly within its range: all 32 bits without a quote, 31 bits with one,
      which adds the hardened bit. White space may stand on either side and before the quote. */
  lemma ComponentRange(l: string, t: string, gap: string, r: string)
    requires AllSpace(l) && AllSpace(gap) && AllSpace(r) && Numeral(t).Ok?
    ensures var n := Numeral(t).value;
      && Component(l + t + r) == (if 0 <= n <= 0xFFFF_FFFF then Ok(n) else Err(OutOfRange))
      && Component(l + (t + gap + "'") + r) ==
           (if 0 <= n <= 0x7FFF_FFFF then Ok(0x8000_0000 + n) else Err(OutOfRange))
  {
    hide Component, Numeral, TrimSpace, AllSpace;
    PlainComponent(t);
    QuotedComponent(t, gap);
    SpaceIgnored(l, t, r);
    SpaceIgnored(l, t + gap + "'", r);
  }

  lemma BlankTrimmed(l: string)
    requires AllSpace(l)
    ensures TrimSpace(l) == ""
  {
    SpaceIgnored(l, "", "");
    assert l + "" + "" == l;
  }

  lemma SplitHead(l: string, t: string)
    requires '/' !in l
    ensures Split(l + "/" + t)[0] == l
  {
    SplitConcat(l, t);
    SplitPlain(l);
  }

  /** A path may not be blank before its first slash, and the mark alone is no path. */
  lemma NoPath(l: string, r: string, t: string)
    requires AllSpace(l) && AllSpace(r)
    ensures Parsed(l) == Parsed(l + "/" + t) == Err(Ambiguous)
    ensures Parsed(l + "m" + r) == Err(Empty)
  {
    assert '/' !in l + "m" + r;
    SplitPlain(l);
    SplitHead(l, t);
    BlankTrimmed(l);
    SplitPlain(l + "m" + r);
    SpaceIgnored(l, "m", r);
    MarkTrimmed();
  }
}
