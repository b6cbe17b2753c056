/** The numbers that the adapter's command line understands, in every base and form that strtoull reads. */
module Numerals {
  import opened Link
  import opened CommandLine
  import opened Arithmetic

  const LOWER := "0123456789abcdef"
  const UPPER := "0123456789ABCDEF"

  /** A number written out in some base. */
  function Numeral(n: nat, base: nat, glyphs: string): (s: string)
    requires 2 <= base <= 16 && |glyphs| == 16
    ensures s != ""
  {
    if n < base then [glyphs[n]] else Numeral(n / base, base, glyphs) + [glyphs[n % base]]
  }

  predicate Glyphs(glyphs: string) {
    glyphs == LOWER || glyphs == UPPER
  }

  /** Nothing that could continue a number, or make one of its base prefix. */
  predicate Ends(rest: string) {
    rest == "" || (DigitValue(rest[0]) == 99 && rest[0] != 'x' && rest[0] != 'X')
  }

  lemma GlyphValues(glyphs: string, d: nat)
    requires Glyphs(glyphs) && d < 16
    ensures DigitValue(glyphs[d]) == d && !IsSpace(glyphs[d]) && glyphs[d] !in "+-xX"
    ensures glyphs[d] == '0' <==> d == 0
  {
    if d < 10 {
      assert glyphs[d] == "0123456789"[d];
    } else {
      assert glyphs[d] == "abcdef"[d - 10] || glyphs[d] == "ABCDEF"[d - 10];
    }
  }

  lemma {:induction false} DigitsConcat(s: string, t: string, base: nat, acc: nat)
    requires forall i :: 0 <= i < |s| ==> DigitValue(s[i]) < base
    ensures Digits(s + t, base, acc) == Digits(t, base, Digits(s, base, acc))
    decreases |s|
  {
    if s == "" {
      assert s + t == t;
    } else {
      assert (s + t)[1..] == s[1..] + t;
      DigitsConcat(s[1..], t, base, acc * base + DigitValue(s[0]));
    }
  }

  lemma LastDigit(n: nat, base: nat)
    requires base >= 2
    ensures n == (n / base) * base + n % base
    ensures n < base ==> n % base == n
    ensures n >= base ==> 0 < n / base < n
  {
    var q := n / base;
    assert n == q * base + n % base;
    if n < base {
      DivisionIsUnique(n, base, 0, n);
    }
    AtLeastTwice(q, base);
  }

  lemma AtLeastTwice(q: nat, base: nat)
    requires base >= 2
    ensures q * base >= 2 * q
  {
    assert q * base == 2 * q + q * (base - 2);
  }

  lemma NumeralGrows(n: nat, base: nat, glyphs: string)
    requires 2 <= base <= 16 && |glyphs| == 16
    ensures n >= base ==> Numeral(n, base, glyphs) == Numeral(n / base, base, glyphs) + [glyphs[n % base]]
    ensures n < base ==> Numeral(n, base, glyphs) == [glyphs[n]]
  {
  }

  lemma {:induction false} NumeralIsRead(n: nat, base: nat, glyphs: string)
    requires 2 <= base <= 16 && Glyphs(glyphs)
    ensures Digits(Numeral(n, base, glyphs), base, 0) == n
    ensures forall i :: 0 <= i < |Numeral(n, base, glyphs)| ==> DigitValue(Numeral(n, base, glyphs)[i]) < base
    ensures DigitValue(Numeral(n, base, glyphs)[0]) < 16 && !IsSpace(Numeral(n, base, glyphs)[0])
    ensures Numeral(n, base, glyphs)[0] !in "+-xX" && (Numeral(n, base, glyphs)[0] == '0' ==> n == 0)
  {
    hide Numeral, Digits, DigitValue, IsSpace;
    LastDigit(n, base);
    NumeralGrows(n, base, glyphs);
    GlyphValues(glyphs, n % base);
    var c := glyphs[n % base];
    if n < base {
      OneDigit(c, base, 0);
    } else {
      OneDigit(c, base, n / base);
      NumeralIsRead(n / base, base, glyphs);
      DigitsConcat(Numeral(n / base, base, glyphs), [c], base, 0);
    }
  }

  lemma OneDigit(c: char, base: nat, acc: nat)
    requires DigitValue(c) < base
    ensures Digits([c], base, acc) == acc * base + DigitValue(c)
  {
    assert [c][1..] == "";
  }

  /** A numeral and what ends it. */
  lemma NumeralThenRest(n: nat, base: nat, glyphs: string, rest: string)
    requires 2 <= base <= 16 && Glyphs(glyphs) && Ends(rest)
    ensures Digits(Numeral(n, base, glyphs) + rest, base, 0) == n
  {
    NumeralIsRead(n, base, glyphs);
    DigitsConcat(Numeral(n, base, glyphs), rest, base, 0);
    hide Numeral;
  }

  /** The prefix tells the base: 0x or 0X for sixteen, 0 for eight, none for ten. */
  lemma PrefixTellsBase(n: nat, glyphs: string, rest: string)
    requires Glyphs(glyphs) && Ends(rest)
    ensures Magnitude("0x" + Numeral(n, 16, glyphs) + rest) == n
    ensures Magnitude("0X" + Numeral(n, 16, glyphs) + rest) == n
    ensures Magnitude("0" + Numeral(n, 8, glyphs) + rest) == n
    ensures Magnitude(Numeral(n, 10, glyphs) + rest) == n
  {
    NumeralThenRest(n, 16, glyphs, rest);
    NumeralThenRest(n, 8, glyphs, rest);
    NumeralThenRest(n, 10, glyphs, rest);
    NumeralIsRead(n, 16, glyphs);
    NumeralIsRead(n, 8, glyphs);
    NumeralIsRead(n, 10, glyphs);
    Hexadecimal("0x", Numeral(n, 16, glyphs), rest);
    Hexadecimal("0X", Numeral(n, 16, glyphs), rest);
    Octal(Numeral(n, 8, glyphs), rest);
    DecimalOrZero(n, glyphs, rest);
  }

  lemma Hexadecimal(prefix: string, s: string, rest: string)
    requires (prefix == "0x" || prefix == "0X") && s != "" && DigitValue(s[0]) < 16
    ensures Magnitude(prefix + s + rest) == Digits(s + rest, 16, 0)
  {
    hide Digits;
    assert (prefix + s + rest)[2..] == s + rest;
  }

  lemma Octal(s: string, rest: string)
    requires s != "" && DigitValue(s[0]) < 8
    ensures Magnitude("0" + s + rest) == Digits(s + rest, 8, 0)
  {
    var t := "0" + s + rest;
    assert t[1..] == s + rest && t[1] == s[0];
    assert Digits(t, 8, 0) == Digits(t[1..], 8, 0);
  }

  lemma DecimalOrZero(n: nat, glyphs: string, rest: string)
    requires Glyphs(glyphs) && Ends(rest)
    ensures Magnitude(Numeral(n, 10, glyphs) + rest) == n
  {
    var t := Numeral(n, 10, glyphs) + rest;
    NumeralIsRead(n, 10, glyphs);
    NumeralThenRest(n, 10, glyphs, rest);
    assert t[0] == Numeral(n, 10, glyphs)[0];
    if n == 0 {
      assert t == "0" + rest && t[1..] == rest;
      assert Digits(t, 8, 0) == Digits(rest, 8, 0) == 0;
    }
  }

  lemma {:induction false} SpaceIsSkipped(ws: string, t: string)
    requires (forall i :: 0 <= i < |ws| ==> IsSpace(ws[i])) && t != "" && !IsSpace(t[0])
    ensures SkipSpace(ws + t) == t
  {
    if ws == "" {
      assert ws + t == t;
    } else {
      assert (ws + t)[1..] == ws[1..] + t;
      SpaceIsSkipped(ws[1..], t);
    }
  }

  /** A number and its sign: what does not fit 64 bits saturates, and a minus negates on 64 bits. */
  lemma SignsAreRead(ws: string, s: string)
    requires (forall i :: 0 <= i < |ws| ==> IsSpace(ws[i])) && s != "" && !IsSpace(s[0]) && s[0] != '+' && s[0] != '-'
    ensures var m := Magnitude(s);
            && StrToUll(ws + s) == StrToUll(ws + ("+" + s)) == (if m < 0x1_0000_0000_0000_0000 then m else ULL_MAX)
            && StrToUll(ws + ("-" + s)) ==
               if m == 0 then 0
               else if m < 0x1_0000_0000_0000_0000 then 0x1_0000_0000_0000_0000 - m
               else ULL_MAX
  {
    hide Magnitude, SkipSpace;
    SpaceIsSkipped(ws, s);
    SpaceIsSkipped(ws, "+" + s);
    SpaceIsSkipped(ws, "-" + s);
    assert ("+" + s)[1..] == s && ("-" + s)[1..] == s;
  }

  // ---------------------------------------------------------------------------
  // One argument after another

  /** What becomes of an argument that is no option, of an option without its value and of one that does not
      exist. */
  lemma ArgumentsOneByOne(a: string, rest: seq<string>, positional: nat, o: Options)
    ensures !("--" <= a) ==>
              ParseFrom([a] + rest, positional, o) ==
              if positional == 0 then ParseFrom(rest, 1, o.(url := Some(a)))
              else if positional == 1 then ParseFrom(rest, 2, o.(startTick := StrToUll(a)))
              else None
    ensures "--" <= a && a != "--selftest" && rest == [] ==> ParseFrom([a] + rest, positional, o).None?
    ensures ("--" <= a && a !in {"--selftest", "--lib", "--clock-freq-mhz", "--max-batch-clocks", "--bar4-size",
                                 "--progress-secs"}) ==> ParseFrom([a] + rest, positional, o).None?
  {
    hide StrToUll;
    assert ([a] + rest)[1..] == rest;
  }

  /** What each option does with its value. */
  lemma OptionsTakeTheirValues(v: string, rest: seq<string>, positional: nat, o: Options)
    ensures ParseFrom(["--lib", v] + rest, positional, o) ==
            ParseFrom(rest, positional, o.(libPath := Some(v)))
    ensures ParseFrom(["--clock-freq-mhz", v] + rest, positional, o) ==
            ParseFrom(rest, positional, o.(clockFreqMhz := StrToUll(v)))
    ensures ParseFrom(["--max-batch-clocks", v] + rest, positional, o) ==
            ParseFrom(rest, positional, o.(maxBatchClocks := StrToUll(v) % 0x1_0000_0000))
    ensures ParseFrom(["--bar4-size", v] + rest, positional, o) ==
            ParseFrom(rest, positional, o.(bar4Override := StrToUll(v)))
    ensures ParseFrom(["--progress-secs", v] + rest, positional, o) ==
            ParseFrom(rest, positional, o.(progress := Some(v)))
    ensures ParseFrom(["--selftest"] + rest, positional, o) == ParseFrom(rest, positional, o.(selftest := true))
  {
    hide StrToUll, ParseFrom;
    ValueTaken("--lib", v, rest, positional, o);
    ValueTaken("--clock-freq-mhz", v, rest, positional, o);
    ValueTaken("--max-batch-clocks", v, rest, positional, o);
    ValueTaken("--bar4-size", v, rest, positional, o);
    ValueTaken("--progress-secs", v, rest, positional, o);
    SelftestTaken(rest, positional, o);
  }

  lemma SelftestTaken(rest: seq<string>, positional: nat, o: Options)
    ensures ParseFrom(["--selftest"] + rest, positional, o) == ParseFrom(rest, positional, o.(selftest := true))
  {
    assert (["--selftest"] + rest)[1..] == rest;
  }

  /** What is accepted in the end, and what one starts from. */
  lemma AcceptedInTheEnd(positional: nat, o: Options)
    ensures ParseFrom([], positional, o) ==
            if o.libPath.None? || (o.url.None? && !o.selftest) || o.clockFreqMhz == 0 || o.maxBatchClocks == 0
            then None else Some(o)
    ensures DEFAULTS.url.None? && DEFAULTS.libPath.None? && !DEFAULTS.selftest && DEFAULTS.startTick == 0
    ensures DEFAULTS.clockFreqMhz == 1000 && DEFAULTS.maxBatchClocks == 500 && DEFAULTS.bar4Override == 0
  {
  }
}
