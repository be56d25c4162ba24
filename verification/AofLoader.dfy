/** `loadAppendOnlyFile`: replays the commands of the file, with C's stdio calls written out. */
module AofLoader {
  import opened Bytes
  import opened Options
  import opened AofFormat

  /** How the command table classifies a name. */
  datatype Kind = Unknown | Multi | Exec | Other

  /** `fgets` into a buffer of 128: up to 127 bytes, up to and including a line feed. */
  const LINE_MAX: nat := 127

  function LineLength(s: bytes, max: nat): (n: nat)
    ensures n <= |s| && n <= max && (s != [] && max > 0 ==> n > 0)
  {
    if s == [] || max == 0 then 0
    else if s[0] == LF then 1
    else 1 + LineLength(s[1..], max - 1)
  }

  /** The last `fgets` ran into the end of the file. */
  predicate HitEnd(s: bytes, n: nat)
    requires n <= |s|
  {
    n == |s| && n < LINE_MAX && (n == 0 || s[n - 1] != LF)
  }

  /** What reading one command gives: the command and the unread rest, or why there is none. */
  datatype Parsed =
    | Command(argv: Argv, rest: bytes)
    | End
    | ShortRead
    | BrokenRead
    | BadFormat
    | NoMemory

  /** The arguments: a length line each, then that many bytes and a line end, which is not looked at. */
  function ReadArgs(s: bytes, n: nat): (p: Parsed)
    ensures p.Command? ==> |p.argv| == n && |p.rest| <= |s|
    decreases n
  {
    if n == 0 then Command([], s)
    else
      match ReadArg(s)
      case Command(a, rest) =>
        (match ReadArgs(rest, n - 1)
         case Command(argv, rest') => Command(a + argv, rest')
         case p => p)
      case p => p
  }

  /** One argument, as a command of one. */
  function ReadArg(s: bytes): (p: Parsed)
    ensures p.Command? ==> |p.argv| == 1 && |p.rest| < |s|
  {
    if s == [] then ShortRead
    else
      var k := LineLength(s, LINE_MAX);
      if s[0] != DOLLAR then BadFormat
      else
        var len := Atoi(s[1..k]);
        if len < 0 then NoMemory
        else if |s| - k < len + 2 then ShortRead
        else Command([s[k..k + len]], s[k + len + 2..])
  }

  function ReadCommand(s: bytes): (p: Parsed)
    ensures p.Command? ==> |p.argv| >= 1 && |p.rest| < |s|
  {
    if s == [] then End
    else
      var k := LineLength(s, LINE_MAX);
      if s[0] != STAR then BadFormat
      else if k == 1 || s[1] == 0 then (if HitEnd(s, k) then ShortRead else BrokenRead)
      else
        var argc := Atoi(s[1..k]);
        if argc < 1 then BadFormat else ReadArgs(s[k..], argc)
  }

  /** The fake client: inside MULTI or not, its queue, and the commands that took effect, in order. */
  datatype Client = Client(multi: bool, queue: seq<Argv>, done: seq<Argv>)

  const FRESH := Client(false, [], [])

  /** Run one command, or queue it inside MULTI. */
  function Execute(c: Client, argv: Argv, kind: Kind): Client {
    if c.multi && kind != Exec then c.(queue := c.queue + [argv])
    else match kind
      case Multi => Client(true, [], c.done)
      case Exec => Client(false, [], c.done + c.queue)
      case _ => c.(done := c.done + [argv])
  }

  datatype Reason = Format | UnknownCommand | UnexpectedEnd | ReadError | OutOfMemory

  /** Loaded, with the offset the file was truncated to, if it was; an empty file; or the server exits. */
  datatype Outcome = Loaded(done: seq<Argv>, cut: Option<nat>) | EmptyFile | Exits(why: Reason)

  /** Where loading stands: the client, the offset after the last command and the one before the last MULTI. */
  datatype Progress = Progress(client: Client, validUpTo: nat, beforeMulti: nat)

  function Advance(p: Progress, argv: Argv, kind: Kind, offset: nat): Progress {
    Progress(Execute(p.client, argv, kind), offset, if kind == Multi then p.validUpTo else p.beforeMulti)
  }

  /** Unexpected end: with aof-load-truncated the file is cut and loading succeeds. */
  function Unexpected(p: Progress, truncated: bool, offset: nat): Outcome {
    if truncated then Loaded(p.client.done, Some(offset)) else Exits(UnexpectedEnd)
  }

  /** The rest of the file. */
  function LoadFrom(s: bytes, size: nat, p: Progress, kind: bytes -> Kind, truncated: bool): Outcome
    requires |s| <= size
    decreases |s|
  {
    match ReadCommand(s)
    case End => if p.client.multi then Unexpected(p, truncated, p.beforeMulti) else Loaded(p.client.done, None)
    case ShortRead => Unexpected(p, truncated, p.validUpTo)
    case BrokenRead => Exits(ReadError)
    case BadFormat => Exits(Format)
    case NoMemory => Exits(OutOfMemory)
    case Command(argv, rest) =>
      if kind(argv[0]) == Unknown then Exits(UnknownCommand)
      else LoadFrom(rest, size, Advance(p, argv, kind(argv[0]), size - |rest|), kind, truncated)
  }

  function Load(file: bytes, kind: bytes -> Kind, truncated: bool): Outcome {
    if file == [] then EmptyFile else LoadFrom(file, |file|, Progress(FRESH, 0, 0), kind, truncated)
  }

  // ---- the loops ----

  /** The argument loop of `loadAppendOnlyFile`. */
  method ReadArguments(s: bytes, argc: nat) returns (p: Parsed)
    ensures p == ReadArgs(s, argc)
  {
    hide LineLength, Atoi;
    var argv: Argv, rest := [], s;
    for j := 0 to argc
      invariant |argv| == j
      invariant ReadArgs(s, argc) == Prepend(argv, ReadArgs(rest, argc - j))
    {
      if rest == [] { return ShortRead; }
      var k := LineLength(rest, LINE_MAX);
      if rest[0] != DOLLAR { return BadFormat; }
      var len := Atoi(rest[1..k]);
      if len < 0 { return NoMemory; }
      if len > 0 && |rest| - k < len { return ShortRead; }
      if |rest| - k - len < 2 { return ShortRead; }
      assert ReadArg(rest) == Command([rest[k..k + len]], rest[k + len + 2..]);
      PrependMore(argv, rest[k..k + len], ReadArgs(rest[k + len + 2..], argc - j - 1));
      hide ReadArg;
      argv, rest := argv + [rest[k..k + len]], rest[k + len + 2..];
    }
    return Command(argv, rest);
  }

  ghost function Prepend(argv: Argv, p: Parsed): Parsed {
    match p
    case Command(more, rest) => Command(argv + more, rest)
    case _ => p
  }

  lemma PrependMore(argv: Argv, a: bytes, p: Parsed)
    ensures Prepend(argv + [a], p) == Prepend(argv, Prepend([a], p))
  {
    if p.Command? { assert argv + [a] + p.argv == argv + ([a] + p.argv); }
  }

  /** One round of the command loop: the count line, then the arguments. */
  method ReadOne(s: bytes) returns (p: Parsed)
    ensures p == ReadCommand(s)
  {
    hide LineLength, Atoi;
    if s == [] { return End; }
    var k := LineLength(s, LINE_MAX);
    if s[0] != STAR { return BadFormat; }
    if k == 1 || s[1] == 0 { return if HitEnd(s, k) then ShortRead else BrokenRead; }
    var argc := Atoi(s[1..k]);
    if argc < 1 { return BadFormat; }
    p := ReadArguments(s[k..], argc);
  }

  /** `loadAppendOnlyFile`. */
  method LoadAppendOnlyFile(file: bytes, kind: bytes -> Kind, truncated: bool) returns (o: Outcome)
    ensures o == Load(file, kind, truncated)
  {
    hide ReadCommand;
    if file == [] { return EmptyFile; }
    var rest, p := file, Progress(FRESH, 0, 0);
    while true
      invariant |rest| <= |file|
      invariant Load(file, kind, truncated) == LoadFrom(rest, |file|, p, kind, truncated)
      decreases |rest|
    {
      var parsed := ReadOne(rest);
      match parsed {
        case Command(argv, rest') =>
          if kind(argv[0]) == Unknown { return Exits(UnknownCommand); }
          p := Advance(p, argv, kind(argv[0]), |file| - |rest'|);
          rest := rest';
        case End =>
          if p.client.multi { return Unexpected(p, truncated, p.beforeMulti); }
          return Loaded(p.client.done, None);
        case ShortRead => return Unexpected(p, truncated, p.validUpTo);
        case BadFormat => return Exits(Format);
        case NoMemory => return Exits(OutOfMemory);
        case BrokenRead => return Exits(ReadError);
      }
    }
  }
}
