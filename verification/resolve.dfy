/** How `main` chooses the database `dumpproject` reads: from a support
    file (a gzip tar archive holding the hub's database), from an explicit
    database path, or from the hub's default location. The filesystem and
    the archive are inputs: the member names of the archive and whether the
    default file exists. */
module Resolve {
  import opened Results

  /** The archive member that holds the hub's database. */
  const EmbeddedDatabaseName := "./supportfile/lutron-db.sqlite"

  /** Where the database lives on a hub. */
  const DefaultDatabasePath := "/var/db/lutron-db.sqlite"

  /** The `-d/--database-path` and `-s/--support-file` options. */
  datatype Args = Args(databasePath: Option<string>, supportFile: Option<string>)

  /** The database to dump: a file given by path, or the copy of the
      archive member at `member` (an index into the archive's members). */
  datatype Source = Direct(path: string) | Extracted(archive: string, member: nat)

  datatype ResolveError = InvalidSupportFile(archive: string) | DefaultMissing(path: string)

  /** The message `parser.error` prints before exiting with status 2. */
  function ErrorMessage(e: ResolveError): string {
    match e
    case InvalidSupportFile(a) => "Invalid support file (couldn't find database) - " + a
    case DefaultMissing(p) => "Cannot find default database file at \"" + p + "\", please specify a valid path"
  }

  /** The number of archive members named like the embedded database. */
  function CountMatches(members: seq<string>): (n: nat)
    ensures n == multiset(members)[EmbeddedDatabaseName]
    ensures n <= |members|
    decreases |members|
  {
    if members == [] then 0
    else
      assert members == [members[0]] + members[1..];
      (if members[0] == EmbeddedDatabaseName then 1 else 0) + CountMatches(members[1..])
  }

  /** The index of the first member named like the embedded database. */
  function FirstMatch(members: seq<string>): (i: nat)
    requires CountMatches(members) > 0
    ensures i < |members| && members[i] == EmbeddedDatabaseName
    ensures forall j :: 0 <= j < i ==> members[j] != EmbeddedDatabaseName
    decreases |members|
  {
    if members[0] == EmbeddedDatabaseName then 0 else 1 + FirstMatch(members[1..])
  }

  /** With exactly one matching member, the first match is the only one. */
  lemma {:induction false} SingleMatch(members: seq<string>, j: nat)
    requires CountMatches(members) == 1 && j < |members| && members[j] == EmbeddedDatabaseName
    ensures j == FirstMatch(members)
    decreases |members|
  {
    if members[0] != EmbeddedDatabaseName {
      assert members[1..][j - 1] == members[j];
      SingleMatch(members[1..], j - 1);
    }
  }

  /** The database `main` hands to `dumpproject`, or the error it reports. */
  function ResolveSource(args: Args, members: seq<string>, defaultExists: bool): (r: Result<Source, ResolveError>)
    ensures args.supportFile.Some? ==>
      (r.Ok? <==> multiset(members)[EmbeddedDatabaseName] == 1)
    ensures r.Ok? && r.value.Extracted? ==>
      args.supportFile == Some(r.value.archive)
      && r.value.member < |members| && members[r.value.member] == EmbeddedDatabaseName
      && forall j :: 0 <= j < |members| && j != r.value.member ==> members[j] != EmbeddedDatabaseName
    ensures args.supportFile.None? ==> r.Ok? ==> r.value.Direct?
    ensures r.Ok? && r.value == Direct(DefaultDatabasePath) ==>
      args.databasePath == Some(DefaultDatabasePath) || defaultExists
  {
    match args.supportFile
    case Some(archive) =>
      if CountMatches(members) == 1 then
        var i := FirstMatch(members);
        assert forall j :: 0 <= j < |members| && members[j] == EmbeddedDatabaseName ==> j == i by {
          forall j | 0 <= j < |members| && members[j] == EmbeddedDatabaseName {
            SingleMatch(members, j);
          }
        }
        Ok(Extracted(archive, i))
      else Err(InvalidSupportFile(archive))
    case None =>
      match args.databasePath
      case Some(path) => Ok(Direct(path))
      case None =>
        if defaultExists then Ok(Direct(DefaultDatabasePath)) else Err(DefaultMissing(DefaultDatabasePath))
  }

  /** A support file takes precedence: the database path option and the
      default file play no part once one is given. */
  lemma SupportFileWins(archive: string, d1: Option<string>, d2: Option<string>, members: seq<string>, e1: bool, e2: bool)
    ensures ResolveSource(Args(d1, Some(archive)), members, e1) == ResolveSource(Args(d2, Some(archive)), members, e2)
  {
  }

  /** Only the names of the members matter, not their order. */
  lemma ResolveMembersAsMultiset(args: Args, m1: seq<string>, m2: seq<string>, e: bool)
    requires multiset(m1) == multiset(m2)
    ensures ResolveSource(args, m1, e).Ok? == ResolveSource(args, m2, e).Ok?
  {
  }

  /** Without options the outcome is decided by the default file alone:
      it is used exactly when it exists, and otherwise the error names it. */
  lemma NoOptions(members: seq<string>, defaultExists: bool)
    ensures ResolveSource(Args(None, None), members, defaultExists)
      == if defaultExists then Ok(Direct(DefaultDatabasePath)) else Err(DefaultMissing(DefaultDatabasePath))
  {
  }

  /** An explicit database path is used as given, whatever exists. */
  lemma DatabasePathUsed(path: string, members: seq<string>, defaultExists: bool)
    ensures ResolveSource(Args(Some(path), None), members, defaultExists) == Ok(Direct(path))
  {
  }

  // ---------------------------------------------------------------------
  // What `main` does, in order

  datatype Effect =
    | OpenArchive(archive: string)   // open the support file as a gzip tar archive
    | CopyToTemp(member: nat)        // extract the member into a temporary file
    | Dump(source: Source)           // `dumpproject` on the chosen database
    | RemoveTemp                     // `os.remove` of the temporary file
    | Exit(status: nat, message: string)
    | Uncaught                       // an exception leaves `main`: traceback, status 1

  /** The actions of `main`, when `dumpproject` raises (`dumpRaises`) or
      returns. Nothing catches an exception from the dump: it ends `main` at
      once with a traceback, and no cleanup follows it. */
  function MainEffects(args: Args, members: seq<string>, defaultExists: bool, dumpRaises: bool): (fx: seq<Effect>)
    ensures |fx| >= 1
  {
    var opening := if args.supportFile.Some? then [OpenArchive(args.supportFile.value)] else [];
    match ResolveSource(args, members, defaultExists)
    case Err(e) => opening + [Exit(2, ErrorMessage(e))]
    case Ok(src) =>
      match src
      case Extracted(_, i) => opening + [CopyToTemp(i), Dump(src)] + (if dumpRaises then [Uncaught] else [RemoveTemp])
      case Direct(_) => [Dump(src)] + (if dumpRaises then [Uncaught] else [])
  }

  /** The temporary copy is removed exactly when an archive was accepted and
      the dump returned normally; a raising dump leaves it behind. */
  lemma TempRemovedIff(args: Args, members: seq<string>, defaultExists: bool, dumpRaises: bool)
    ensures RemoveTemp in MainEffects(args, members, defaultExists, dumpRaises)
      <==> args.supportFile.Some? && multiset(members)[EmbeddedDatabaseName] == 1 && !dumpRaises
  {
  }

  /** When the source resolves, `dumpproject` runs on it and `parser.error`
      is never called. A dump that returns ends `main` normally; a dump that
      raises ends it with the uncaught exception. */
  lemma DumpWhenResolved(args: Args, members: seq<string>, defaultExists: bool, dumpRaises: bool)
    requires ResolveSource(args, members, defaultExists).Ok?
    ensures var fx := MainEffects(args, members, defaultExists, dumpRaises);
      Dump(ResolveSource(args, members, defaultExists).value) in fx && forall e :: e in fx ==> !e.Exit?
    ensures var fx := MainEffects(args, members, defaultExists, dumpRaises);
      dumpRaises <==> Uncaught in fx
    ensures var fx := MainEffects(args, members, defaultExists, dumpRaises);
      dumpRaises ==> fx[|fx| - 1] == Uncaught
  {
  }

  /** When it does not, `main` ends by exiting with status 2 and the
      error's message, and nothing is dumped. */
  lemma ExitWhenRejected(args: Args, members: seq<string>, defaultExists: bool, dumpRaises: bool)
    requires ResolveSource(args, members, defaultExists).Err?
    ensures var fx := MainEffects(args, members, defaultExists, dumpRaises);
      fx[|fx| - 1] == Exit(2, ErrorMessage(ResolveSource(args, members, defaultExists).error))
      && forall e :: e in fx ==> !e.Dump? && e != Uncaught
  {
  }
}
