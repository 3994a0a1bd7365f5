/**
 * The program's entry point: its constants, the command line
 * `program <bind_addr> [<send_addr>]`, and the choice between sender and
 * receiver mode. Address parsing is a parameter `parse` (a partial function
 * from text to an address of type `A`), and so are the things `main` asks of
 * the outside world: whether the JACK client starts (and at what sample rate),
 * and the error with which the chosen mode's `start` ends.
 */
module NetAudio {
  import opened Options
  import opened Io

  const RING_BUFFER_SIZE: nat := 16384
  const PACKET_SIZE: nat := 480

  datatype Args<A> = Args(bindAddr: A, sendAddr: Option<A>)

  /** `Iterator::next` on the argument vector: the next argument and what remains. */
  function Next(args: seq<string>): (r: (Option<string>, seq<string>))
  {
    if args == [] then (None, []) else (Some(args[0]), args[1..])
  }

  /**
   * `parse_args`: the program name (empty if there is none) and the parsed
   * arguments. The bind address is required and must parse; a second argument
   * that does not parse is dropped; anything after it is never looked at.
   */
  function ParseArgs<A>(argv: seq<string>, parse: string -> Option<A>): (r: (string, Option<Args<A>>))
    ensures r.0 == if |argv| > 0 then argv[0] else ""
    ensures r.1.Some? <==> |argv| >= 2 && parse(argv[1]).Some?
    ensures r.1.Some? ==> r.1.value.bindAddr == parse(argv[1]).value
    ensures r.1.Some? ==> r.1.value.sendAddr == if |argv| >= 3 then parse(argv[2]) else None
  {
    var (program, rest) := Next(argv);
    var (bindArg, rest') := Next(rest);
    var (sendArg, _) := Next(rest');
    (program.UnwrapOr(""),
     if bindArg.None? then None
     else match parse(bindArg.value)
       case None => None
       case Some(bind) => Some(Args(bind, AndThen(sendArg, parse))))
  }

  datatype Mode<A> = SenderMode(bind: A, send: A) | ReceiverMode(bind: A)

  /** A destination address selects the sender; its absence the receiver. */
  function SelectMode<A>(args: Args<A>): (m: Mode<A>)
    ensures m.SenderMode? <==> args.sendAddr.Some?
    ensures m.bind == args.bindAddr
    ensures m.SenderMode? ==> m.send == args.sendAddr.value
  {
    match args.sendAddr
    case Some(send) => SenderMode(args.bindAddr, send)
    case None => ReceiverMode(args.bindAddr)
  }

  datatype ExitCode = Success | Failure

  /**
   * The lines `main` itself writes to standard error, which mode it starts (if
   * any), and how it exits. What the started mode logs before its `start`
   * returns is left to that mode's model.
   */
  datatype Run<A> = Run(log: seq<LogLine>, started: Option<Mode<A>>, exit: ExitCode)

  /**
   * `main`. `client` is the JACK client's sample rate when the client starts and
   * `None` when it does not; `start` is the error with which a mode's `start`
   * ends, since it never returns otherwise.
   */
  function Main<A>(argv: seq<string>, parse: string -> Option<A>, client: Option<nat>,
                   start: Mode<A> -> string): (r: Run<A>)
    ensures r.exit == Failure
    ensures r.started.Some? <==> ParseArgs(argv, parse).1.Some? && client.Some?
    ensures ParseArgs(argv, parse).1.None? ==> r.log == [Usage(ParseArgs(argv, parse).0)]
    ensures ParseArgs(argv, parse).1.Some? && client.None? ==> r.log == [ClientStartFailed]
    ensures r.started.Some? ==>
              r.started.value == SelectMode(ParseArgs(argv, parse).1.value) &&
              r.log == [SampleRate(client.value), Fatal(start(r.started.value))]
  {
    var (program, args) := ParseArgs(argv, parse);
    if args.None? then
      Run([Usage(program)], None, Failure)
    else if client.None? then
      Run([ClientStartFailed], None, Failure)
    else
      var mode := SelectMode(args.value);
      Run([SampleRate(client.value), Fatal(start(mode))], Some(mode), Failure)
  }

  /** Without a bind address `main` prints the usage line and fails before touching JACK. */
  lemma NoBindAddressPrintsUsage<A>(argv: seq<string>, parse: string -> Option<A>, client: Option<nat>,
                                    start: Mode<A> -> string)
    requires |argv| <= 1
    ensures var r := Main(argv, parse, client, start);
            r.started == None && r.exit == Failure &&
            r.log == [Usage(if argv == [] then "" else argv[0])]
  {
  }

  /** An unparseable bind address is a usage error too. */
  lemma UnparseableBindPrintsUsage<A>(argv: seq<string>, parse: string -> Option<A>, client: Option<nat>,
                                      start: Mode<A> -> string)
    requires |argv| >= 2 && parse(argv[1]).None?
    ensures var r := Main(argv, parse, client, start);
            r.started == None && r.exit == Failure && r.log == [Usage(argv[0])]
  {
  }

  /** An unparseable second address is not an error: it silently selects receiver mode. */
  lemma UnparseableSendSelectsReceiver<A>(argv: seq<string>, parse: string -> Option<A>, rate: nat,
                                          start: Mode<A> -> string)
    requires |argv| >= 3 && parse(argv[1]).Some? && parse(argv[2]).None?
    ensures Main(argv, parse, Some(rate), start).started == Some(ReceiverMode(parse(argv[1]).value))
  {
  }

  /** Arguments after the second address are ignored. */
  lemma ExtraArgumentsIgnored<A>(argv: seq<string>, extra: seq<string>, parse: string -> Option<A>)
    requires |argv| >= 3
    ensures ParseArgs(argv + extra, parse) == ParseArgs(argv, parse)
  {
  }
}
