/**
 Startup parameter selection on rank 0 (the first block of `main` in
 random_walk.cpp).

 The program keeps `domain_size` and `max_steps` in process-wide globals.
 When exactly two command-line arguments are given it first stores their
 parsed values; it then always tries to read two integers from standard
 input, and a successful read overwrites the globals. Only when that read
 fails and the argument count is not 3 does it print a usage message and
 exit with status 1.

 Parsing (`atoi`, `std::cin >> d >> m`) is not modelled: the inputs are the
 already-parsed argument values and the outcome of the stream read.
 */
module Parameters {

  datatype Option<T> = None | Some(value: T)

  /** The two integers every rank needs: domain half-width and step budget. */
  datatype Params = Params(domainSize: int, maxSteps: int)

  /** What rank 0 sees at startup. `argc` counts the program name, so two
      arguments mean `argc == 3`; `argvDomain` and `argvSteps` are the parsed
      `argv[1]` and `argv[2]` and matter only then. `stdinRead` is the pair
      read from standard input, or `None` when the read failed. */
  datatype Startup = Startup(
    program: string,
    argc: int,
    argvDomain: int,
    argvSteps: int,
    stdinRead: Option<Params>)

  /** Either the agreed parameters or the usage error with its message. */
  datatype Choice = Chosen(params: Params) | UsageError(message: string)

  /** The line written to the error stream when no parameters are available. */
  function UsageMessage(program: string): string
  {
    "Usage: mpirun -np <p> " + program + " <domain_size> <max_steps>"
  }

  /** The precedence policy: a successful read of standard input wins; the
      command-line pair is the fallback when exactly two arguments exist;
      otherwise the run fails with the usage message. */
  function Choose(s: Startup): (c: Choice)
    ensures c.Chosen? <==> s.stdinRead.Some? || s.argc == 3
    ensures c.Chosen? ==>
      Some(c.params) == s.stdinRead || (s.argc == 3 && c.params == Params(s.argvDomain, s.argvSteps))
    ensures c.UsageError? ==> c.message == UsageMessage(s.program)
  {
    match s.stdinRead
    case Some(p) => Chosen(p)
    case None =>
      if s.argc == 3 then Chosen(Params(s.argvDomain, s.argvSteps))
      else UsageError(UsageMessage(s.program))
  }

  /** A successful read of standard input decides the parameters whatever the
      command line holds. */
  lemma StdinOverridesArgv(s: Startup, t: Startup)
    requires s.stdinRead.Some? && t.stdinRead == s.stdinRead
    ensures Choose(s) == Choose(t) == Chosen(s.stdinRead.value)
  {
  }

  /** The command-line values are taken only when the stream read failed and
      exactly two arguments were given. */
  lemma ArgvOnlyAsFallback(s: Startup)
    requires Choose(s).Chosen? && s.stdinRead.None?
    ensures s.argc == 3
    ensures Choose(s).params == Params(s.argvDomain, s.argvSteps)
  {
  }

  /** The usage error happens exactly when neither source is available. */
  lemma UsageErrorExactly(s: Startup)
    ensures Choose(s).UsageError? <==> s.stdinRead.None? && s.argc != 3
  {
  }

  /** The process-wide globals `domain_size` and `max_steps`. */
  class Globals {
    var domainSize: int
    var maxSteps: int

    /** C zero-initialises globals. */
    constructor ()
      ensures domainSize == 0 && maxSteps == 0
    {
      domainSize, maxSteps := 0, 0;
    }

    function Current(): Params
      reads this
    {
      Params(domainSize, maxSteps)
    }

    /** Rank 0's selection, assigning the globals step by step as `main` does.
        Returns the usage message when the run must stop; the globals are then
        left as they were. */
    method SelectParameters(s: Startup) returns (usage: Option<string>)
      modifies this
      ensures usage.Some? <==> Choose(s).UsageError?
      ensures usage.Some? ==> usage.value == UsageMessage(s.program)
      ensures Choose(s).Chosen? ==> Current() == Choose(s).params
      ensures Choose(s).UsageError? ==> Current() == old(Current())
    {
      usage := None;
      if s.argc == 3 {
        domainSize := s.argvDomain;
        maxSteps := s.argvSteps;
      }
      match s.stdinRead {
        case Some(p) =>
          domainSize := p.domainSize;
          maxSteps := p.maxSteps;
        case None =>
          if s.argc != 3 {
            usage := Some(UsageMessage(s.program));
          }
      }
    }

    /** The broadcast from rank 0: every rank's globals take the root's values. */
    method ReceiveBroadcast(root: Params)
      modifies this
      ensures Current() == root
    {
      domainSize := root.domainSize;
      maxSteps := root.maxSteps;
    }
  }
}
