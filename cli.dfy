/** The command-line overrides of src/toast/cli.c.  getopt_long itself is
    left out: the options it reports, in order, come in as a sequence of
    `CliOption` values, one per call, ending where getopt_long returns -1. */
module Cli {
  import opened Wrappers
  import opened LibC
  import opened Config

  /** What one call of getopt_long reports with the option string
      ":hi:p:scv": a known option (with its argument where it takes one),
      ':' for an option whose argument is missing, or '?' for an unknown
      option. */
  datatype CliOption =
    | Help
    | IpAddress(address: string)
    | Port(number: string)
    | Ssl
    | Compress
    | Verbose
    | MissingArgument
    | Unrecognised

  /** How parse_args ends: a return value, or usage() and exit(0). */
  datatype Outcome = Returned(code: int) | ExitedAfterUsage

  /** The effect of one option: carry on with the new record, or stop. */
  datatype Step = Next(config: Config) | Halt(outcome: Outcome)

  /** The effect of a run of options: every option handled, or stopped
      early with `config` as it stood when the stopping option came. */
  datatype Parse =
    | Finished(config: Config)
    | Stopped(outcome: Outcome, config: Config)
  {
    /** The value parse_args ends with. */
    function Result(): Outcome {
      if Finished? then Returned(0) else outcome
    }
  }

  const PortMax: nat := 65535

  /** The port `-p` accepts: atoi's value stored in an unsigned int, refused
      when it is 0 (so text atoi reads as 0, such as non-numeric text) or
      above 65535 (so any negative number). */
  function PortValue(number: string): (r: Option<Uint32>)
    ensures r.Some? ==> 1 <= r.value <= PortMax
    ensures r.Some? <==> 1 <= Atoi(number) <= PortMax
    ensures r.Some? ==> r.value == Atoi(number)
  {
    var port := ToUnsigned(Atoi(number));
    if port == 0 || port > PortMax then None else Some(port)
  }

  /** One arm of the switch in parse_args. */
  function Apply(c: Config, o: CliOption): Step {
    match o
    case Help => Halt(ExitedAfterUsage)
    case IpAddress(address) =>
      // strlcpy into the 16-byte buffer copies the whole of an address that
      // passed the length test
      if |address| > IpMax then Halt(Returned(-1))
      else Next(c.(network := c.network.(ip := Some(address))))
    case Port(number) =>
      (match PortValue(number)
       case None => Halt(Returned(-1))
       case Some(port) => Next(c.(network := c.network.(port := port))))
    case Ssl => Next(c.(ssl := c.ssl.(enabled := !c.ssl.enabled)))
    case Compress => Next(c.(compression := c.compression.(enabled := !c.compression.enabled)))
    case Verbose => Next(c)
    case MissingArgument => Next(c)
    case Unrecognised => Halt(Returned(0))
  }

  /** The options applied left to right until one stops the loop. */
  function Run(c: Config, opts: seq<CliOption>): Parse
    decreases |opts|
  {
    if opts == [] then Finished(c)
    else match Apply(c, opts[0])
      case Next(c') => Run(c', opts[1..])
      case Halt(outcome) => Stopped(outcome, c)
  }

  /** parse_args: the record is updated in place option by option, and an
      early return leaves the earlier updates standing. */
  method ParseArgs(opts: seq<CliOption>, args: ConfigRecord) returns (outcome: Outcome)
    modifies args
    ensures args.Value() == Run(old(args.Value()), opts).config
    ensures outcome == Run(old(args.Value()), opts).Result()
  {
    if |opts| == 0 {
      return Returned(0);
    }
    var i := 0;
    while i < |opts|
      invariant 0 <= i <= |opts|
      invariant Run(old(args.Value()), opts) == Run(args.Value(), opts[i..])
    {
      assert opts[i..][0] == opts[i] && opts[i..][1..] == opts[i + 1..];
      match opts[i] {
        case Help =>
          return ExitedAfterUsage;
        case IpAddress(address) =>
          if |address| > IpMax {
            return Returned(-1);
          }
          args.network := args.network.(ip := Some(address));
        case Port(number) =>
          var port := ToUnsigned(Atoi(number));
          if port == 0 || port > PortMax {
            return Returned(-1);
          }
          args.network := args.network.(port := port);
        case Ssl =>
          args.ssl := args.ssl.(enabled := !args.ssl.enabled);
        case Compress =>
          args.compression := args.compression.(enabled := !args.compression.enabled);
        case Verbose =>
        case MissingArgument =>
        case Unrecognised =>
          return Returned(0);
      }
      i := i + 1;
    }
    return Returned(0);
  }

  // ---------------------------------------------------------------------
  // Properties of a run
  // ---------------------------------------------------------------------

  /** Options are handled in sequence: a run of `xs ++ ys` is the run of
      `xs`, continued with `ys` from where `xs` left the record, unless `xs`
      already stopped. */
  lemma {:induction false} RunAppend(c: Config, xs: seq<CliOption>, ys: seq<CliOption>)
    ensures Run(c, xs + ys) ==
              if Run(c, xs).Finished? then Run(Run(c, xs).config, ys) else Run(c, xs)
    decreases |xs|
  {
    if xs != [] {
      assert (xs + ys)[0] == xs[0] && (xs + ys)[1..] == xs[1..] + ys;
      match Apply(c, xs[0])
      case Next(c') => RunAppend(c', xs[1..], ys);
      case Halt(_) =>
    } else {
      assert xs + ys == ys;
    }
  }

  /** A stopping option ends the run: the options before it stay applied,
      the ones after it are not looked at. */
  lemma StopsAt(c: Config, xs: seq<CliOption>, o: CliOption, ys: seq<CliOption>)
    requires Run(c, xs).Finished? && Apply(Run(c, xs).config, o).Halt?
    ensures Run(c, xs + [o] + ys) == Stopped(Apply(Run(c, xs).config, o).outcome, Run(c, xs).config)
  {
    assert xs + [o] + ys == xs + ([o] + ys);
    RunAppend(c, xs, [o] + ys);
  }

  /** An unknown option ends parsing with 0, and the options after it are
      not applied. */
  lemma UnrecognisedStops(c: Config, xs: seq<CliOption>, ys: seq<CliOption>)
    requires Run(c, xs).Finished?
    ensures Run(c, xs + [Unrecognised] + ys) == Stopped(Returned(0), Run(c, xs).config)
  {
    StopsAt(c, xs, Unrecognised, ys);
  }

  /** `-v` and an option missing its argument change nothing and parsing
      carries on, wherever they come. */
  lemma QuietOptionsIgnored(c: Config, xs: seq<CliOption>, o: CliOption, ys: seq<CliOption>)
    requires o == Verbose || o == MissingArgument
    ensures Run(c, xs + [o] + ys) == Run(c, xs + ys)
  {
    assert xs + [o] + ys == xs + ([o] + ys);
    RunAppend(c, xs, [o] + ys);
    RunAppend(c, xs, ys);
    assert ([o] + ys)[1..] == ys;
  }

  /** `-h` ends the program with status 0; nothing after it is applied. */
  lemma HelpExits(c: Config, xs: seq<CliOption>, ys: seq<CliOption>)
    requires Run(c, xs).Finished?
    ensures Run(c, xs + [Help] + ys) == Stopped(ExitedAfterUsage, Run(c, xs).config)
  {
    StopsAt(c, xs, Help, ys);
  }

  /** An address longer than 15 characters gives -1, without touching the
      address and without undoing the options before it. */
  lemma LongAddressRejected(c: Config, xs: seq<CliOption>, address: string, ys: seq<CliOption>)
    requires Run(c, xs).Finished? && |address| > IpMax
    ensures Run(c, xs + [IpAddress(address)] + ys) == Stopped(Returned(-1), Run(c, xs).config)
  {
    StopsAt(c, xs, IpAddress(address), ys);
  }

  /** A port atoi does not read as 1..65535 gives -1, without undoing the
      options before it. */
  lemma BadPortRejected(c: Config, xs: seq<CliOption>, number: string, ys: seq<CliOption>)
    requires Run(c, xs).Finished? && !(1 <= Atoi(number) <= PortMax)
    ensures Run(c, xs + [Port(number)] + ys) == Stopped(Returned(-1), Run(c, xs).config)
  {
    StopsAt(c, xs, Port(number), ys);
  }

  /** Every port from 1 to 65535, written in decimal, is accepted as itself. */
  lemma PortRoundTrip(port: int)
    requires 1 <= port <= PortMax
    ensures PortValue(Decimal(port)) == Some(port)
  {
    AtoiDecimal(port);
  }

  /** Negative ports are refused: their unsigned value is above 65535. */
  lemma NegativePortRejected(port: int)
    requires -0x8000_0000 <= port < 0
    ensures PortValue(Decimal(port)) == None
  {
    AtoiDecimal(port);
  }

  /** Text that does not start with a number (after white space) reads as
      0 and is refused. */
  lemma NonNumericPortRejected(number: string)
    requires var t := SkipSpace(number);
             t == [] || (!IsDigit(t[0]) && t[0] != '-' && t[0] != '+')
    ensures PortValue(number) == None
  {
    assert StrtolValue(number) == 0;
  }

  /** atoi keeps the low 32 bits of what it reads, so a decimal number above
      the range of int whose low 32 bits are a valid port is accepted as that
      port. */
  lemma PortWrapsAround(n: nat)
    requires n <= LongMax && 1 <= n % 0x1_0000_0000 <= PortMax
    ensures PortValue(Natural(n)) == Some(n % 0x1_0000_0000)
  {
    StrtolNatural(n);
  }

  /** The argument of the last `-i` among `opts`, if any. */
  function LastAddress(opts: seq<CliOption>): Option<string> {
    if opts == [] then None
    else match LastAddress(opts[1..])
      case Some(address) => Some(address)
      case None => if opts[0].IpAddress? then Some(opts[0].address) else None
  }

  /** The argument of the last `-p` among `opts`, if any. */
  function LastPort(opts: seq<CliOption>): Option<string> {
    if opts == [] then None
    else match LastPort(opts[1..])
      case Some(number) => Some(number)
      case None => if opts[0].Port? then Some(opts[0].number) else None
  }

  /** How many times `o` occurs in `opts`. */
  function Count(opts: seq<CliOption>, o: CliOption): nat {
    if opts == [] then 0 else (if opts[0] == o then 1 else 0) + Count(opts[1..], o)
  }

  lemma OddCountStep(opts: seq<CliOption>, o: CliOption)
    requires opts != []
    ensures (Count(opts, o) % 2 == 1) == ((opts[0] == o) != (Count(opts[1..], o) % 2 == 1))
  {
    var k := Count(opts[1..], o);
    assert (k + 1) % 2 == 1 <==> k % 2 != 1;
  }

  /** After a run that handled every option, the last `-i` decides the
      address; without one the record keeps its own. */
  lemma {:induction false} LastAddressWins(c: Config, opts: seq<CliOption>)
    requires Run(c, opts).Finished?
    ensures Run(c, opts).config.network.ip ==
              if LastAddress(opts).Some? then LastAddress(opts) else c.network.ip
    decreases |opts|
  {
    if opts != [] {
      match Apply(c, opts[0])
      case Next(c') =>
        LastAddressWins(c', opts[1..]);
        assert c'.network.ip == if opts[0].IpAddress? then Some(opts[0].address) else c.network.ip;
    }
  }

  /** After a run that handled every option, the port is the value of the
      last `-p`; without one the record keeps its own. */
  lemma {:induction false} LastPortWins(c: Config, opts: seq<CliOption>)
    requires Run(c, opts).Finished?
    ensures LastPort(opts).Some? ==> PortValue(LastPort(opts).value) == Some(Run(c, opts).config.network.port)
    ensures LastPort(opts).None? ==> Run(c, opts).config.network.port == c.network.port
    decreases |opts|
  {
    if opts != [] {
      match Apply(c, opts[0])
      case Next(c') =>
        LastPortWins(c', opts[1..]);
        assert opts[0].Port? ==> PortValue(opts[0].number) == Some(c'.network.port);
        assert !opts[0].Port? ==> c'.network.port == c.network.port;
    }
  }

  /** After a run that handled every option, `-s` has flipped ssl.enabled
      once per occurrence. */
  lemma {:induction false} SslToggledByParity(c: Config, opts: seq<CliOption>)
    requires Run(c, opts).Finished?
    ensures Run(c, opts).config.ssl.enabled == (c.ssl.enabled != (Count(opts, Ssl) % 2 == 1))
    decreases |opts|
  {
    if opts != [] {
      match Apply(c, opts[0])
      case Next(c') =>
        SslToggledByParity(c', opts[1..]);
        assert c'.ssl.enabled == (c.ssl.enabled != (opts[0] == Ssl));
        OddCountStep(opts, Ssl);
    }
  }

  /** After a run that handled every option, `-c` has flipped
      compression.enabled once per occurrence. */
  lemma {:induction false} CompressionToggledByParity(c: Config, opts: seq<CliOption>)
    requires Run(c, opts).Finished?
    ensures Run(c, opts).config.compression.enabled ==
              (c.compression.enabled != (Count(opts, Compress) % 2 == 1))
    decreases |opts|
  {
    if opts != [] {
      match Apply(c, opts[0])
      case Next(c') =>
        CompressionToggledByParity(c', opts[1..]);
        assert c'.compression.enabled == (c.compression.enabled != (opts[0] == Compress));
        OddCountStep(opts, Compress);
    }
  }

  /** `-s -s` and `-c -c` leave the record as it was. */
  lemma TogglesAreInvolutions(c: Config)
    ensures Run(c, [Ssl, Ssl]) == Finished(c)
    ensures Run(c, [Compress, Compress]) == Finished(c)
  {
    assert [Ssl, Ssl][1..] == [Ssl];
    assert [Compress, Compress][1..] == [Compress];
  }

  /** The fields the command line never touches. */
  predicate SameBeyondOverrides(c: Config, d: Config) {
    && d.siteRoot == c.siteRoot
    && d.logType == c.logType
    && d.compression.quality == c.compression.quality
    && d.compression.minSize == c.compression.minSize
    && d.ssl.memCached == c.ssl.memCached
    && d.ssl.certPath == c.ssl.certPath
    && d.ssl.keyPath == c.ssl.keyPath
  }

  /** Whatever the options, only the address, the port and the two flags
      change, and an address the command line sets fits the 16-byte
      buffer. */
  lemma {:induction false} OnlyOverridesChange(c: Config, opts: seq<CliOption>)
    ensures SameBeyondOverrides(c, Run(c, opts).config)
    ensures Run(c, opts).config.network.ip != c.network.ip ==>
              Run(c, opts).config.network.ip.Some? && |Run(c, opts).config.network.ip.value| <= IpMax
    ensures Run(c, opts).config.network.port != c.network.port ==>
              1 <= Run(c, opts).config.network.port <= PortMax
    decreases |opts|
  {
    if opts != [] {
      match Apply(c, opts[0])
      case Next(c') => OnlyOverridesChange(c', opts[1..]);
      case Halt(_) =>
    }
  }
}
