/** The command line: printed by the orchestration's simulator class, parsed back by the adapter. */
module CommandLine {
  import opened Link
  import opened Arithmetic

  const ULL_MAX := 0xFFFF_FFFF_FFFF_FFFF

  // ---------------------------------------------------------------------------
  // Numbers

  function DigitChar(d: nat): char
    requires d < 10
  {
    '0' + d as char
  }

  /** How Python prints a non-negative integer. */
  function Decimal(n: nat): (s: string)
    ensures s != ""
  {
    if n < 10 then [DigitChar(n)] else Decimal(n / 10) + [DigitChar(n % 10)]
  }

  /** The value of a digit character; 99 if it is none in any base. */
  function DigitValue(c: char): nat {
    if '0' <= c <= '9' then (c - '0') as nat
    else if 'a' <= c <= 'f' then (c - 'a') as nat + 10
    else if 'A' <= c <= 'F' then (c - 'A') as nat + 10
    else 99
  }

  /** The number that the digits at the front of `s` continue `acc` to. */
  function Digits(s: string, base: nat, acc: nat): nat {
    if s == "" || DigitValue(s[0]) >= base then acc
    else Digits(s[1..], base, acc * base + DigitValue(s[0]))
  }

  predicate IsSpace(c: char) {
    c == ' ' || '\t' <= c <= '\r'
  }

  function SkipSpace(s: string): string {
    if s != "" && IsSpace(s[0]) then SkipSpace(s[1..]) else s
  }

  /** The magnitude of a number whose base its prefix tells. */
  function Magnitude(s: string): nat {
    if |s| > 2 && s[0] == '0' && (s[1] == 'x' || s[1] == 'X') && DigitValue(s[2]) < 16 then Digits(s[2..], 16, 0)
    else if s != "" && s[0] == '0' then Digits(s, 8, 0)
    else Digits(s, 10, 0)
  }

  /** strtoull(s, nullptr, 0): saturating, and negating on 64 bits after a minus sign. */
  function StrToUll(s: string): nat {
    var t := SkipSpace(s);
    if t != "" && t[0] == '-' then
      var m := Magnitude(t[1..]);
      if m > ULL_MAX then ULL_MAX else (TWO_64 - m) % TWO_64
    else
      var m := Magnitude(if t != "" && t[0] == '+' then t[1..] else t);
      if m > ULL_MAX then ULL_MAX else m
  }

  lemma {:induction false} DigitsAppend(s: string, c: char, acc: nat)
    requires forall i :: 0 <= i < |s| ==> DigitValue(s[i]) < 10
    ensures Digits(s + [c], 10, acc) == Digits([c], 10, Digits(s, 10, acc))
    decreases |s|
  {
    if s == "" {
      assert s + [c] == [c];
    } else {
      assert (s + [c])[1..] == s[1..] + [c];
      DigitsAppend(s[1..], c, acc * 10 + DigitValue(s[0]));
    }
  }

  /** Decimal digits read back as the number; only zero starts with '0'. */
  lemma {:induction false} DecimalDigits(n: nat)
    ensures Digits(Decimal(n), 10, 0) == n
    ensures forall i :: 0 <= i < |Decimal(n)| ==> '0' <= Decimal(n)[i] <= '9'
    ensures Decimal(n)[0] == '0' ==> n == 0
  {
    if n < 10 {
      assert Decimal(n) == [DigitChar(n)] && Decimal(n)[1..] == "";
      assert DigitValue(DigitChar(n)) == n;
    } else {
      DecimalDigits(n / 10);
      var c := DigitChar(n % 10);
      DigitsAppend(Decimal(n / 10), c, 0);
      assert [c][1..] == "" && DigitValue(c) == n % 10;
      assert Decimal(n)[0] == Decimal(n / 10)[0];
    }
  }

  /** What Python prints, the adapter reads, as long as it fits 64 bits. */
  lemma NumberReadsBack(n: nat)
    requires n <= ULL_MAX
    ensures StrToUll(Decimal(n)) == n
  {
    DecimalDigits(n);
    var s := Decimal(n);
    assert SkipSpace(s) == s;
    if n == 0 {
      assert s == "0" && s[1..] == "";
      assert Digits(s, 8, 0) == Digits("", 8, 0) == 0;
    }
  }

  // ---------------------------------------------------------------------------
  // Words

  /** The words of a command line, between blanks. */
  function Words(s: string): seq<string> {
    if s == "" then []
    else if IsSpace(s[0]) then Words(s[1..])
    else
      var n := WordLen(s);
      [s[..n]] + Words(s[n..])
  }

  function WordLen(s: string): (n: nat)
    ensures n <= |s| && (s != "" && !IsSpace(s[0]) ==> n > 0)
    ensures forall i :: 0 <= i < n ==> !IsSpace(s[i])
    ensures n < |s| ==> IsSpace(s[n])
  {
    if s == "" || IsSpace(s[0]) then 0 else 1 + WordLen(s[1..])
  }

  function Join(ws: seq<string>): string {
    if ws == [] then "" else if |ws| == 1 then ws[0] else ws[0] + " " + Join(ws[1..])
  }

  predicate Clean(w: string) {
    w != "" && forall i :: 0 <= i < |w| ==> !IsSpace(w[i])
  }

  /** The first word ends at the first blank. */
  lemma WordEnds(w: string, rest: string)
    requires Clean(w) && (rest == "" || IsSpace(rest[0]))
    ensures WordLen(w + rest) == |w|
  {
    var s := w + rest;
    assert forall i :: 0 <= i < |w| ==> s[i] == w[i];
    assert |w| < |s| ==> s[|w|] == rest[0];
  }

  /** Joining clean words and taking the words apart again gives them back. */
  lemma {:induction false} WordsOfJoin(ws: seq<string>)
    requires forall w :: w in ws ==> Clean(w)
    ensures Words(Join(ws)) == ws
  {
    if ws != [] {
      var w, rest := ws[0], if |ws| == 1 then "" else " " + Join(ws[1..]);
      assert Join(ws) == w + rest;
      WordEnds(w, rest);
      assert (w + rest)[0] == w[0];
      assert (w + rest)[..|w|] == w && (w + rest)[|w|..] == rest;
      WordsOfJoin(ws[1..]);
      if |ws| > 1 {
        assert rest[1..] == Join(ws[1..]);
      }
    }
  }

  // ---------------------------------------------------------------------------
  // Printing

  datatype Config = Config(executable: string, url: string, startTick: nat, libPath: string, clockFreqMhz: nat,
                           maxBatchClocks: nat, bar4Size: Option<nat>, extraArgs: Option<string>)

  /** One option and its value, as appended to the command. */
  function OptionText(name: string, value: string): string {
    " " + name + " " + value
  }

  /** TTSimDevSim.run_cmd, from the parameters url on. */
  function RunCmd(c: Config): string {
    var cmd := c.executable + " " + c.url + " " + Decimal(c.startTick);
    var cmd := cmd + OptionText("--lib", c.libPath);
    var cmd := cmd + OptionText("--clock-freq-mhz", Decimal(c.clockFreqMhz));
    var cmd := cmd + OptionText("--max-batch-clocks", Decimal(c.maxBatchClocks));
    var cmd := if c.bar4Size.Some? then cmd + OptionText("--bar4-size", Decimal(c.bar4Size.value)) else cmd;
    if c.extraArgs.Some? then cmd + " " + c.extraArgs.value else cmd
  }

  function Bar4Args(c: Config): seq<string> {
    if c.bar4Size.Some? then ["--bar4-size", Decimal(c.bar4Size.value)] else []
  }

  function OptionArgs(c: Config): seq<string> {
    ["--lib", c.libPath] + (["--clock-freq-mhz", Decimal(c.clockFreqMhz)] +
                            (["--max-batch-clocks", Decimal(c.maxBatchClocks)] + Bar4Args(c)))
  }

  function Argv(c: Config): seq<string> {
    [c.executable] + ([c.url] + ([Decimal(c.startTick)] + OptionArgs(c)))
  }

  // ---------------------------------------------------------------------------
  // Parsing

  datatype Options = Options(url: Option<string>, libPath: Option<string>, startTick: nat, clockFreqMhz: nat,
                             maxBatchClocks: nat, bar4Override: nat, progress: Option<string>, selftest: bool)

  const DEFAULTS := Options(None, None, 0, 1000, 500, 0, None, false)

  predicate IsOption(a: string) {
    |a| >= 2 && a[..2] == "--"
  }

  /** static_cast<uint32_t> */
  function ToUint32(n: nat): (r: nat)
    ensures r < TWO_32 && (n < TWO_32 ==> r == n)
  {
    n % TWO_32
  }

  /** An option that takes a value; None if there is no such option. */
  function WithValue(o: Options, a: string, v: string): Option<Options> {
    if a == "--lib" then Some(o.(libPath := Some(v)))
    else if a == "--clock-freq-mhz" then Some(o.(clockFreqMhz := StrToUll(v)))
    else if a == "--max-batch-clocks" then Some(o.(maxBatchClocks := ToUint32(StrToUll(v))))
    else if a == "--bar4-size" then Some(o.(bar4Override := StrToUll(v)))
    else if a == "--progress-secs" then Some(o.(progress := Some(v)))
    else None
  }

  function WithPositional(o: Options, a: string, positional: nat): Option<Options> {
    if positional == 0 then Some(o.(url := Some(a)))
    else if positional == 1 then Some(o.(startTick := StrToUll(a)))
    else None
  }

  /** The checks after the loop. */
  predicate Acceptable(o: Options) {
    o.libPath.Some? && (o.selftest || o.url.Some?) && o.clockFreqMhz != 0 && o.maxBatchClocks != 0
  }

  /** What the arguments from `args` on make of `o`; None if they are refused. */
  function ParseFrom(args: seq<string>, positional: nat, o: Options): Option<Options>
    decreases |args|
  {
    if args == [] then if Acceptable(o) then Some(o) else None
    else if !IsOption(args[0]) then
      match WithPositional(o, args[0], positional)
      case None => None
      case Some(o') => ParseFrom(args[1..], positional + 1, o')
    else if args[0] == "--selftest" then ParseFrom(args[1..], positional, o.(selftest := true))
    else if |args| == 1 then None
    else
      match WithValue(o, args[0], args[1])
      case None => None
      case Some(o') => ParseFrom(args[2..], positional, o')
  }

  /** ParseOptions: argv[0] is the program itself. */
  method ParseOptions(argv: seq<string>) returns (r: Option<Options>)
    requires argv != []
    ensures r == ParseFrom(argv[1..], 0, DEFAULTS)
  {
    var o, positional, i := DEFAULTS, 0, 1;
    while i < |argv|
      invariant 1 <= i <= |argv|
      invariant ParseFrom(argv[i..], positional, o) == ParseFrom(argv[1..], 0, DEFAULTS)
      decreases |argv| - i
    {
      var a := argv[i];
      assert argv[i..][0] == a && argv[i..][1..] == argv[i + 1..];
      if !IsOption(a) {
        var next := WithPositional(o, a, positional);
        if next.None? {
          return None;
        }
        o, positional, i := next.value, positional + 1, i + 1;
      } else if a == "--selftest" {
        o, i := o.(selftest := true), i + 1;
      } else if i + 1 >= |argv| {
        return None;
      } else {
        assert argv[i..][1] == argv[i + 1] && argv[i..][2..] == argv[i + 2..];
        var next := WithValue(o, a, argv[i + 1]);
        if next.None? {
          return None;
        }
        o, i := next.value, i + 2;
      }
    }
    assert argv[i..] == [];
    return if Acceptable(o) then Some(o) else None;
  }

  // ---------------------------------------------------------------------------
  // The round trip

  /** The configurations the printer is meant for. */
  predicate Printable(c: Config) {
    && Clean(c.executable) && Clean(c.url) && Clean(c.libPath) && c.extraArgs.None?
    && c.startTick <= ULL_MAX && 0 < c.clockFreqMhz <= ULL_MAX && 0 < c.maxBatchClocks < TWO_32
    && (c.bar4Size.Some? ==> c.bar4Size.value <= ULL_MAX)
  }

  /** What the adapter should end up with: an absent BAR4 size means no override, which is written 0. */
  function Intended(c: Config): Options {
    Options(Some(c.url), Some(c.libPath), c.startTick, c.clockFreqMhz, c.maxBatchClocks,
            if c.bar4Size.Some? then c.bar4Size.value else 0, None, false)
  }

  lemma {:induction false} JoinAppend(ws: seq<string>, w: string)
    requires ws != []
    ensures Join(ws + [w]) == Join(ws) + " " + w
  {
    assert (ws + [w])[1..] == ws[1..] + [w];
    if |ws| > 1 {
      JoinAppend(ws[1..], w);
      Associate(ws[0], " ", Join(ws[1..]), " ", w);
    } else {
      assert Join([w]) == w;
    }
  }

  lemma Associate(a: string, b: string, c: string, d: string, e: string)
    ensures a + b + (c + d + e) == a + b + c + d + e
    ensures a + (b + c + d + e) == a + b + c + d + e
  {
  }

  lemma JoinOption(ws: seq<string>, name: string, value: string)
    requires ws != []
    ensures Join(ws + [name, value]) == Join(ws) + OptionText(name, value)
  {
    JoinAppend(ws, name);
    JoinAppend(ws + [name], value);
    assert ws + [name] + [value] == ws + [name, value];
    Associate(Join(ws), " ", name, " ", value);
  }

  /** What run_cmd prints is the arguments, one blank between each two. */
  lemma RunCmdIsJoin(c: Config)
    requires c.extraArgs.None?
    ensures RunCmd(c) == Join(Argv(c))
  {
    hide Decimal, OptionText;
    var ws := [c.executable];
    assert Join(ws) == c.executable;
    JoinAppend(ws, c.url);
    JoinAppend([c.executable, c.url], Decimal(c.startTick));
    var w3 := [c.executable, c.url, Decimal(c.startTick)];
    assert ws + [c.url] == [c.executable, c.url] && [c.executable, c.url] + [Decimal(c.startTick)] == w3;
    hide Join;
    JoinOption(w3, "--lib", c.libPath);
    var w5 := w3 + ["--lib", c.libPath];
    JoinOption(w5, "--clock-freq-mhz", Decimal(c.clockFreqMhz));
    var w7 := w5 + ["--clock-freq-mhz", Decimal(c.clockFreqMhz)];
    JoinOption(w7, "--max-batch-clocks", Decimal(c.maxBatchClocks));
    var w9 := w7 + ["--max-batch-clocks", Decimal(c.maxBatchClocks)];
    assert Join(w3) == c.executable + " " + c.url + " " + Decimal(c.startTick);
    assert Join(w9) == RunCmd(c.(bar4Size := None));
    assert Argv(c) == w9 + Bar4Args(c);
    if c.bar4Size.Some? {
      JoinOption(w9, "--bar4-size", Decimal(c.bar4Size.value));
      assert RunCmd(c) == RunCmd(c.(bar4Size := None)) + OptionText("--bar4-size", Decimal(c.bar4Size.value));
    } else {
      assert w9 + [] == w9;
      assert c.(bar4Size := None) == c;
    }
  }

  lemma DecimalIsClean(n: nat)
    ensures Clean(Decimal(n)) && !IsOption(Decimal(n))
  {
    DecimalDigits(n);
  }

  lemma ArgvIsClean(c: Config)
    requires Printable(c)
    ensures forall w :: w in Argv(c) ==> Clean(w)
  {
    DecimalIsClean(c.startTick);
    DecimalIsClean(c.clockFreqMhz);
    DecimalIsClean(c.maxBatchClocks);
    if c.bar4Size.Some? {
      DecimalIsClean(c.bar4Size.value);
    }
    hide Decimal, IsSpace;
  }

  /** The parser takes the printed arguments for what they were printed from. */
  lemma ArgvParses(c: Config)
    requires Printable(c) && !IsOption(c.url)
    ensures ParseFrom(Argv(c)[1..], 0, DEFAULTS) == Some(Intended(c))
  {
    DecimalIsClean(c.startTick);
    NumberReadsBack(c.startTick);
    hide Decimal, StrToUll, ParseFrom, IsOption, OptionArgs, Clean;
    assert Argv(c)[1..] == [c.url] + ([Decimal(c.startTick)] + OptionArgs(c));
    PositionalTaken(c.url, [Decimal(c.startTick)] + OptionArgs(c), 0, DEFAULTS);
    var o1 := DEFAULTS.(url := Some(c.url));
    PositionalTaken(Decimal(c.startTick), OptionArgs(c), 1, o1);
    OptionsParse(c, o1.(startTick := c.startTick));
  }

  lemma OptionsParse(c: Config, o: Options)
    requires Printable(c)
    requires o == DEFAULTS.(url := Some(c.url), startTick := c.startTick)
    ensures ParseFrom(OptionArgs(c), 2, o) == Some(Intended(c))
  {
    hide Decimal, StrToUll, ParseFrom, Clean;
    var t2 := ["--max-batch-clocks", Decimal(c.maxBatchClocks)] + Bar4Args(c);
    LibTaken(c.libPath, ["--clock-freq-mhz", Decimal(c.clockFreqMhz)] + t2, o);
    var o1 := o.(libPath := Some(c.libPath));
    FreqTaken(c.clockFreqMhz, t2, o1);
    var o2 := o1.(clockFreqMhz := c.clockFreqMhz);
    BatchTaken(c.maxBatchClocks, Bar4Args(c), o2);
    var o3 := o2.(maxBatchClocks := c.maxBatchClocks);
    if c.bar4Size.Some? {
      assert Bar4Args(c) == ["--bar4-size", Decimal(c.bar4Size.value)] + [];
      Bar4Taken(c.bar4Size.value, [], o3);
    }
    NothingLeft(2, Intended(c));
  }

  lemma LibTaken(path: string, rest: seq<string>, o: Options)
    ensures ParseFrom(["--lib", path] + rest, 2, o) == ParseFrom(rest, 2, o.(libPath := Some(path)))
  {
    ValueTaken("--lib", path, rest, 2, o);
  }

  lemma FreqTaken(n: nat, rest: seq<string>, o: Options)
    requires n <= ULL_MAX
    ensures ParseFrom(["--clock-freq-mhz", Decimal(n)] + rest, 2, o) == ParseFrom(rest, 2, o.(clockFreqMhz := n))
  {
    NumberReadsBack(n);
    hide Decimal, StrToUll;
    ValueTaken("--clock-freq-mhz", Decimal(n), rest, 2, o);
  }

  lemma BatchTaken(n: nat, rest: seq<string>, o: Options)
    requires n < TWO_32
    ensures ParseFrom(["--max-batch-clocks", Decimal(n)] + rest, 2, o) ==
            ParseFrom(rest, 2, o.(maxBatchClocks := n))
  {
    NumberReadsBack(n);
    hide Decimal, StrToUll, ToUint32;
    ValueTaken("--max-batch-clocks", Decimal(n), rest, 2, o);
  }

  lemma Bar4Taken(n: nat, rest: seq<string>, o: Options)
    requires n <= ULL_MAX
    ensures ParseFrom(["--bar4-size", Decimal(n)] + rest, 2, o) == ParseFrom(rest, 2, o.(bar4Override := n))
  {
    NumberReadsBack(n);
    hide Decimal, StrToUll;
    ValueTaken("--bar4-size", Decimal(n), rest, 2, o);
  }

  lemma NothingLeft(positional: nat, o: Options)
    requires Acceptable(o)
    ensures ParseFrom([], positional, o) == Some(o)
  {
  }

  lemma PositionalTaken(a: string, rest: seq<string>, positional: nat, o: Options)
    requires !IsOption(a) && WithPositional(o, a, positional).Some?
    ensures ParseFrom([a] + rest, positional, o) ==
            ParseFrom(rest, positional + 1, WithPositional(o, a, positional).value)
  {
    assert ([a] + rest)[1..] == rest;
  }

  lemma ValueTaken(name: string, v: string, rest: seq<string>, positional: nat, o: Options)
    requires IsOption(name) && name != "--selftest" && WithValue(o, name, v).Some?
    ensures ParseFrom([name, v] + rest, positional, o) == ParseFrom(rest, positional, WithValue(o, name, v).value)
  {
    assert ([name, v] + rest)[2..] == rest;
  }

  /** Whatever the arguments, a url that comes out does not look like an option. */
  lemma {:induction false} UrlIsPositional(args: seq<string>, positional: nat, o: Options)
    requires o.url.Some? ==> !IsOption(o.url.value)
    ensures var r := ParseFrom(args, positional, o);
            r.Some? && r.value.url.Some? ==> !IsOption(r.value.url.value)
    decreases |args|
  {
    if args != [] {
      if !IsOption(args[0]) {
        var o' := WithPositional(o, args[0], positional);
        if o'.Some? { UrlIsPositional(args[1..], positional + 1, o'.value); }
      } else if args[0] == "--selftest" {
        UrlIsPositional(args[1..], positional, o.(selftest := true));
      } else if |args| > 1 {
        var o' := WithValue(o, args[0], args[1]);
        if o'.Some? { UrlIsPositional(args[2..], positional, o'.value); }
      }
    }
  }

  /** The round trip: for every configuration the printer is meant for, taking the printed command apart and
      parsing it recovers the configuration, exactly when the url does not look like an option. */
  lemma CommandRoundTrip(c: Config)
    requires Printable(c)
    ensures var argv := Words(RunCmd(c));
            && argv == Argv(c)
            && (ParseFrom(argv[1..], 0, DEFAULTS) == Some(Intended(c)) <==> !IsOption(c.url))
  {
    RunCmdIsJoin(c);
    ArgvIsClean(c);
    WordsOfJoin(Argv(c));
    if IsOption(c.url) {
      UrlIsPositional(Argv(c)[1..], 0, DEFAULTS);
    } else {
      ArgvParses(c);
    }
  }

  // ---------------------------------------------------------------------------
  // The clock period

  const PS_PER_US := 1_000_000

  /** The set-up in main: picoseconds per clock step, on integer division, and never zero. */
  function PsPerClock(freqMhz: nat): nat
    requires freqMhz > 0
  {
    var ps := PS_PER_US / freqMhz;
    if ps == 0 then 1 else ps
  }

  /** The period is the longest that does not make the device slower than asked for; it is exact for the divisors
      of a million only, and above 1 THz the device is slower than asked for all the same. */
  lemma PeriodIsLongestThatKeepsUp(freqMhz: nat)
    requires freqMhz > 0
    ensures PsPerClock(freqMhz) > 0
    ensures forall ps :: 0 < ps <= PsPerClock(freqMhz) && freqMhz <= PS_PER_US ==> ps * freqMhz <= PS_PER_US
    ensures forall ps :: ps > PsPerClock(freqMhz) ==> ps * freqMhz > PS_PER_US
    ensures PsPerClock(freqMhz) * freqMhz == PS_PER_US <==> PS_PER_US % freqMhz == 0
    ensures PsPerClock(freqMhz) * freqMhz > PS_PER_US <==> freqMhz > PS_PER_US
  {
    var q, r := PS_PER_US / freqMhz, PS_PER_US % freqMhz;
    assert PS_PER_US == q * freqMhz + r;
    if q > 0 {
      Scales(1, q, freqMhz);
    }
    forall ps: int | ps > PsPerClock(freqMhz) ensures ps * freqMhz > PS_PER_US {
      Scales(q + 1, ps, freqMhz);
      assert (q + 1) * freqMhz == q * freqMhz + freqMhz;
    }
    forall ps: int | 0 < ps <= PsPerClock(freqMhz) && freqMhz <= PS_PER_US ensures ps * freqMhz <= PS_PER_US {
      assert q > 0;
      Scales(ps, q, freqMhz);
    }
  }

  lemma Scales(a: nat, b: nat, d: nat)
    requires a <= b
    ensures a * d <= b * d
  {
  }

  /** Every command line that is accepted makes for a positive period and a positive batch. */
  lemma {:induction false} AcceptedIsRunnable(args: seq<string>, positional: nat, o: Options)
    ensures var r := ParseFrom(args, positional, o);
            r.Some? ==> r.value.clockFreqMhz > 0 && PsPerClock(r.value.clockFreqMhz) > 0 && r.value.maxBatchClocks > 0
    decreases |args|
  {
    if args != [] {
      if !IsOption(args[0]) {
        var o' := WithPositional(o, args[0], positional);
        if o'.Some? { AcceptedIsRunnable(args[1..], positional + 1, o'.value); }
      } else if args[0] == "--selftest" {
        AcceptedIsRunnable(args[1..], positional, o.(selftest := true));
      } else if |args| > 1 {
        var o' := WithValue(o, args[0], args[1]);
        if o'.Some? { AcceptedIsRunnable(args[2..], positional, o'.value); }
      }
    }
  }
}
