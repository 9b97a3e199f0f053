/**
 The per-build listing cache of perfdash (artifactsCache in perfdash/metrics-downloader.go)
 over a store that lists by string prefix (perfdash/gcs_metrics_bucket.go).
 */
module ArtifactsCache {
  import opened Wrappers
  import opened Text

  // ----- Path joining, as path.Join does it -----

  /** One piece of a path is applied to the pieces kept so far. */
  function Push(stack: seq<string>, rooted: bool, piece: string): seq<string> {
    if piece == "" || piece == "." then stack
    else if piece == ".." then
      if stack != [] && stack[|stack| - 1] != ".." then stack[..|stack| - 1]
      else if rooted then stack
      else stack + [".."]
    else stack + [piece]
  }

  function Resolve(stack: seq<string>, rooted: bool, pieces: seq<string>): seq<string>
    decreases |pieces|
  {
    if pieces == [] then stack else Resolve(Push(stack, rooted, pieces[0]), rooted, pieces[1..])
  }

  function Show(stack: seq<string>, rooted: bool): string {
    if rooted then "/" + Join(stack, '/')
    else if stack == [] then "."
    else Join(stack, '/')
  }

  function Clean(path: string): string {
    if path == "" then "."
    else Show(Resolve([], path[0] == '/', Split(path, '/')), path[0] == '/')
  }

  function NonEmpty(elements: seq<string>): (r: seq<string>)
    ensures forall e :: e in r ==> e != ""
  {
    if elements == [] then []
    else (if elements[0] == "" then [] else [elements[0]]) + NonEmpty(elements[1..])
  }

  function PathJoin(elements: seq<string>): string {
    var kept := NonEmpty(elements);
    if kept == [] then "" else Clean(Join(kept, '/'))
  }

  function Decimal(n: nat): (r: string)
    ensures r != "" && forall c :: c in r ==> '0' <= c <= '9'
  {
    if n < 10 then [('0' as int + n) as char]
    else Decimal(n / 10) + [('0' as int + n % 10) as char]
  }

  /** strconv.Itoa */
  function Itoa(n: int): (r: string)
    ensures r != "" && '/' !in r && '.' !in r
  {
    if n < 0 then "-" + Decimal(-n) else Decimal(n)
  }

  // ----- What a build number is written as -----

  function Digit(c: char): int {
    c as int - '0' as int
  }

  /** The number that a string of digits stands for. */
  function Value(digits: string): int {
    if digits == "" then 0 else 10 * Value(digits[..|digits| - 1]) + Digit(digits[|digits| - 1])
  }

  /** strconv.Atoi, for what Itoa writes. */
  function Atoi(s: string): int
    requires s != ""
  {
    if s[0] == '-' then 0 - Value(s[1..]) else Value(s)
  }

  lemma {:induction false} DecimalMeans(n: nat)
    ensures Value(Decimal(n)) == n
    ensures Decimal(n)[0] == '0' ==> n == 0
  {
    if n >= 10 {
      DecimalMeans(n / 10);
      var front := Decimal(n / 10);
      var digits := front + [('0' as int + n % 10) as char];
      assert digits[..|front|] == front && digits[0] == front[0];
      assert Digit(digits[|front|]) == n % 10;
      assert Value(digits) == 10 * Value(front) + n % 10;
    } else {
      var digits := [('0' as int + n) as char];
      assert digits[..0] == "" && Value("") == 0 && Digit(digits[0]) == n;
    }
  }

  /** A written number reads back as itself, and has no leading zero. */
  lemma WrittenReadsBack(n: int)
    ensures Atoi(Itoa(n)) == n
    ensures Itoa(n)[0] == '0' ==> n == 0
  {
    hide Value, Decimal;
    if n < 0 {
      DecimalMeans(-n);
      assert ("-" + Decimal(-n))[1..] == Decimal(-n);
    } else {
      DecimalMeans(n);
      assert Decimal(n)[0] in Decimal(n);
    }
  }

  // ----- The prefix of a build -----

  datatype Bucket = Bucket(logPath: string, files: seq<string>) {

    function FilePrefix(job: string, buildNumber: int, prefix: string): string {
      PathJoin([logPath, job, Itoa(buildNumber), prefix])
    }

    function DirPrefix(job: string, buildNumber: int): string {
      FilePrefix(job, buildNumber, "/")
    }

    /** What the store answers when its listing works. */
    function Listing(job: string, buildNumber: int, prefix: string): seq<string> {
      Starting(files, FilePrefix(job, buildNumber, prefix))
    }
  }

  /** The strings that start with `prefix`, in their order. */
  function Starting(files: seq<string>, prefix: string): seq<string> {
    if files == [] then []
    else (if prefix <= files[0] then [files[0]] else []) + Starting(files[1..], prefix)
  }

  // ----- How the prefix of a search relates to the prefix of its build -----

  lemma {:induction false} ResolveConcat(stack: seq<string>, rooted: bool, a: seq<string>, b: seq<string>)
    ensures Resolve(stack, rooted, a + b) == Resolve(Resolve(stack, rooted, a), rooted, b)
    decreases |a|
  {
    if a == [] {
      assert a + b == b;
    } else {
      assert (a + b)[1..] == a[1..] + b;
      ResolveConcat(Push(stack, rooted, a[0]), rooted, a[1..], b);
    }
  }

  /** A piece that may stand in a clean path, behind a climbing piece or in front, or elsewhere. */
  predicate Fits(piece: string, climbing: bool, rooted: bool) {
    piece != "" && piece != "." && (piece == ".." ==> !rooted && climbing)
  }

  predicate IsClimbing(stack: seq<string>, k: nat)
    requires k <= |stack|
  {
    k == 0 || stack[k - 1] == ".."
  }

  /** No empty or dot piece, and pieces that climb up only in front of a relative path. */
  ghost predicate IsClean(stack: seq<string>, rooted: bool) {
    forall k :: 0 <= k < |stack| ==> Fits(stack[k], IsClimbing(stack, k), rooted)
  }

  lemma PushShape(stack: seq<string>, rooted: bool, piece: string)
    ensures
      var r := Push(stack, rooted, piece);
      if |r| <= |stack| then r == stack[..|r|]
      else r == stack + [piece] && Fits(piece, IsClimbing(stack, |stack|), rooted)
  {
  }

  lemma TakeCleans(stack: seq<string>, rooted: bool, n: nat)
    requires IsClean(stack, rooted) && n <= |stack|
    ensures IsClean(stack[..n], rooted)
  {
    hide Fits;
    forall k | 0 <= k < n ensures Fits(stack[..n][k], IsClimbing(stack[..n], k), rooted) {
      assert Fits(stack[k], IsClimbing(stack, k), rooted);
    }
  }

  lemma AppendCleans(stack: seq<string>, rooted: bool, piece: string)
    requires IsClean(stack, rooted) && Fits(piece, IsClimbing(stack, |stack|), rooted)
    ensures IsClean(stack + [piece], rooted)
  {
    hide Fits;
    var r := stack + [piece];
    forall k | 0 <= k < |r| ensures Fits(r[k], IsClimbing(r, k), rooted) {
      assert IsClimbing(r, k) == IsClimbing(stack, k);
      assert k < |stack| ==> Fits(stack[k], IsClimbing(stack, k), rooted);
    }
  }

  lemma PushCleans(stack: seq<string>, rooted: bool, piece: string)
    requires IsClean(stack, rooted)
    ensures IsClean(Push(stack, rooted, piece), rooted)
  {
    hide Push, Fits, IsClean;
    PushShape(stack, rooted, piece);
    var r := Push(stack, rooted, piece);
    if |r| <= |stack| {
      TakeCleans(stack, rooted, |r|);
    } else {
      AppendCleans(stack, rooted, piece);
    }
  }

  lemma {:induction false} ResolveCleans(stack: seq<string>, rooted: bool, pieces: seq<string>)
    requires IsClean(stack, rooted)
    ensures IsClean(Resolve(stack, rooted, pieces), rooted)
    decreases |pieces|
  {
    hide Push, IsClean;
    if pieces != [] {
      PushCleans(stack, rooted, pieces[0]);
      ResolveCleans(Push(stack, rooted, pieces[0]), rooted, pieces[1..]);
    }
  }

  /** A clean path is left as it is, piece by piece. */
  lemma {:induction false} CleanStaysAsItIs(stack: seq<string>, rooted: bool, pieces: seq<string>)
    requires IsClean(stack + pieces, rooted)
    ensures Resolve(stack, rooted, pieces) == stack + pieces
    decreases |pieces|
  {
    if pieces != [] {
      var next := stack + [pieces[0]];
      assert stack + pieces == next + pieces[1..];
      assert (stack + pieces)[|stack|] == pieces[0];
      assert stack != [] ==> (stack + pieces)[|stack| - 1] == stack[|stack| - 1];
      assert Push(stack, rooted, pieces[0]) == next;
      CleanStaysAsItIs(next, rooted, pieces[1..]);
    } else {
      assert stack + pieces == stack;
    }
  }

  lemma {:induction false} ResolveGrows(stack: seq<string>, rooted: bool, pieces: seq<string>)
    requires ".." !in pieces
    ensures stack <= Resolve(stack, rooted, pieces)
    decreases |pieces|
  {
    if pieces != [] {
      ResolveGrows(Push(stack, rooted, pieces[0]), rooted, pieces[1..]);
    }
  }

  lemma JoinPrefix(a: seq<string>, b: seq<string>)
    requires a != [] && a <= b
    ensures Join(a, '/') <= Join(b, '/')
  {
    if a != b {
      var rest := b[|a|..];
      assert b == a + rest;
      assert rest == [] ==> b == a;
      JoinConcat(a, rest, '/');
    }
  }

  /** The pieces of a build's directory end with the build number. */
  lemma BasePieces(logPath: string, job: string, n: int) returns (base: string, front: seq<string>)
    ensures base != "" && Split(base, '/') == front + [Itoa(n)]
    ensures forall prefix ::
      PathJoin([logPath, job, Itoa(n), prefix]) == Clean(if prefix == "" then base else base + "/" + prefix)
  {
    hide Clean, Split, Itoa;
    var named := NonEmpty([logPath, job]);
    NonEmptyConcat([logPath, job], [Itoa(n)]);
    assert [logPath, job] + [Itoa(n)] == [logPath, job, Itoa(n)];
    assert NonEmpty([Itoa(n)]) == [Itoa(n)];
    var kept := named + [Itoa(n)];
    base := Join(kept, '/');
    SplitWhole(Itoa(n), '/');
    if named == [] {
      front := [];
      assert base == Itoa(n);
    } else {
      JoinConcat(named, [Itoa(n)], '/');
      SplitAtSeparator(Join(named, '/'), Itoa(n), '/');
      front := Split(Join(named, '/'), '/');
    }
    forall prefix: string
      ensures PathJoin([logPath, job, Itoa(n), prefix]) == Clean(if prefix == "" then base else base + "/" + prefix)
    {
      NonEmptyConcat([logPath, job, Itoa(n)], [prefix]);
      assert [logPath, job, Itoa(n)] + [prefix] == [logPath, job, Itoa(n), prefix];
      if prefix != "" {
        assert NonEmpty([prefix]) == [prefix];
        JoinConcat(kept, [prefix], '/');
      } else {
        assert kept + [] == kept;
      }
    }
  }

  lemma {:induction false} NonEmptyConcat(a: seq<string>, b: seq<string>)
    ensures NonEmpty(a + b) == NonEmpty(a) + NonEmpty(b)
  {
    if a == [] {
      assert a + b == b;
    } else {
      assert (a + b)[1..] == a[1..] + b;
      NonEmptyConcat(a[1..], b);
    }
  }

  /**
   The directory of a build is a stack that ends with the build number, and a search prefix
   is resolved on top of that stack.
   */
  lemma PrefixStacks(bucket: Bucket, job: string, n: int) returns (rooted: bool, stack: seq<string>)
    ensures bucket.DirPrefix(job, n) == Show(stack + [Itoa(n)], rooted)
    ensures forall prefix ::
      bucket.FilePrefix(job, n, prefix) == Show(Resolve(stack + [Itoa(n)], rooted, Split(prefix, '/')), rooted)
  {
    hide Split, Show, PathJoin, Itoa;
    var base, front := BasePieces(bucket.logPath, job, n);
    rooted := base[0] == '/';
    stack := Resolve([], rooted, front);
    ResolveConcat([], rooted, front, [Itoa(n)]);
    var dir := stack + [Itoa(n)];
    assert Resolve([], rooted, Split(base, '/')) == dir by {
      assert Itoa(n) != "" && '.' !in Itoa(n);
      assert [Itoa(n)][1..] == [];
    }
    forall prefix: string
      ensures bucket.FilePrefix(job, n, prefix) == Show(Resolve(dir, rooted, Split(prefix, '/')), rooted)
    {
      if prefix == "" {
        SplitWhole("", '/');
        assert [""][1..] == [];
      } else {
        SplitAtSeparator(base, prefix, '/');
        ResolveConcat([], rooted, Split(base, '/'), Split(prefix, '/'));
        assert (base + "/" + prefix)[0] == base[0];
      }
    }
    SplitWhole("", '/');
    SplitAtSeparator("", "", '/');
    assert "" + ['/'] + "" == "/";
    assert ["", ""][1..] == [""] && [""][1..] == [];
  }

  // ----- Cleaning twice, and paths that are clean already -----

  lemma {:induction false} ResolveNames(stack: seq<string>, rooted: bool, pieces: seq<string>)
    requires forall k :: 0 <= k < |stack| ==> '/' !in stack[k]
    requires forall k :: 0 <= k < |pieces| ==> '/' !in pieces[k]
    ensures forall k :: 0 <= k < |Resolve(stack, rooted, pieces)| ==> '/' !in Resolve(stack, rooted, pieces)[k]
    decreases |pieces|
  {
    if pieces != [] {
      ResolveNames(Push(stack, rooted, pieces[0]), rooted, pieces[1..]);
    }
  }

  /** What a clean stack is shown as is resolved to the same stack. */
  lemma ShownResolves(stack: seq<string>, rooted: bool)
    requires IsClean(stack, rooted) && forall k :: 0 <= k < |stack| ==> '/' !in stack[k]
    ensures Show(stack, rooted) != "" && (Show(stack, rooted)[0] == '/' <==> rooted)
    ensures Resolve([], rooted, Split(Show(stack, rooted), '/')) == stack
  {
    hide Split, Join;
    var shown := Join(stack, '/');
    if stack == [] {
      SplitWhole("", '/');
      SplitWhole(".", '/');
      assert [""][1..] == [] && ["."][1..] == [];
      NoPieces();
    } else {
      SplitOfJoin(stack, '/');
      assert [] + stack == stack;
      CleanStaysAsItIs([], rooted, stack);
      assert Fits(stack[0], IsClimbing(stack, 0), rooted);
      JoinStarts(stack);
    }
    if rooted {
      SplitAtSeparator("", shown, '/');
      SplitWhole("", '/');
      assert "" + ['/'] + shown == "/" + shown;
      var pieces := Split(shown, '/');
      assert ([""] + pieces)[1..] == pieces;
    }
  }

  lemma NoPieces()
    ensures Join([], '/') == ""
  {
  }

  lemma JoinStarts(pieces: seq<string>)
    requires pieces != [] && pieces[0] != ""
    ensures Join(pieces, '/') != "" && Join(pieces, '/')[0] == pieces[0][0]
  {
  }

  /** Cleaning a path twice is cleaning it once, and keeps it rooted or relative. */
  lemma CleaningIsIdempotent(path: string)
    ensures Clean(Clean(path)) == Clean(path) != ""
    ensures Clean(path)[0] == '/' <==> path != "" && path[0] == '/'
  {
    hide Split, Show, Resolve;
    if path == "" {
      ShownResolves([], false);
      ShownEmpty();
    } else {
      var rooted := path[0] == '/';
      CleanNothing(rooted);
      ResolveCleans([], rooted, Split(path, '/'));
      ResolveNames([], rooted, Split(path, '/'));
      ShownResolves(Resolve([], rooted, Split(path, '/')), rooted);
    }
  }

  lemma ShownEmpty()
    ensures Show([], false) == "."
  {
  }

  lemma CleanNothing(rooted: bool)
    ensures IsClean([], rooted)
  {
  }

  ghost predicate AreNames(pieces: seq<string>) {
    forall k :: 0 <= k < |pieces| ==> IsName(pieces[k])
  }

  /** A path of names is left as it is. */
  lemma NamesAreClean(pieces: seq<string>)
    requires pieces != [] && AreNames(pieces)
    ensures Clean(Join(pieces, '/')) == Join(pieces, '/')
  {
    hide Split, Join;
    assert IsName(pieces[0]);
    JoinStarts(pieces);
    SplitOfJoin(pieces, '/');
    assert [] + pieces == pieces;
    assert pieces[0][0] != '/' by { assert pieces[0][0] in pieces[0]; }
    forall k | 0 <= k < |pieces| ensures Fits(pieces[k], IsClimbing(pieces, k), false) {
      assert IsName(pieces[k]);
    }
    CleanStaysAsItIs([], false, pieces);
    assert Show(pieces, false) == Join(pieces, '/');
  }

  /** For ordinary names the prefix of a search is log path, job, build number and search prefix with slashes between
      them, and the directory of the build is the same without the last. */
  lemma PlainPrefix(bucket: Bucket, job: string, n: int, logs: seq<string>, search: seq<string>)
    requires logs != [] && AreNames(logs) && IsName(job) && AreNames(search) && bucket.logPath == Join(logs, '/')
    ensures bucket.FilePrefix(job, n, Join(search, '/')) == Join(logs + [job, Itoa(n)] + search, '/')
    ensures bucket.DirPrefix(job, n) == Join(logs + [job, Itoa(n)], '/')
  {
    hide Split, Join, Clean, Show, Itoa, PathJoin, IsName;
    PlainPathJoin(logs, job, Itoa(n), search);
    PlainPathJoin(logs, job, Itoa(n), []);
    NoPieces();
    assert logs + [job, Itoa(n)] + [] == logs + [job, Itoa(n)];
    var rooted, stack := PrefixStacks(bucket, job, n);
    SplitWhole("", '/');
    assert [""][1..] == [];
    assert Resolve(stack + [Itoa(n)], rooted, [""]) == stack + [Itoa(n)];
  }

  lemma PlainPathJoin(logs: seq<string>, job: string, build: string, search: seq<string>)
    requires logs != [] && AreNames(logs) && IsName(job) && AreNames(search)
    requires build != "" && '/' !in build && '.' !in build
    ensures PathJoin([Join(logs, '/'), job, build, Join(search, '/')]) == Join(logs + [job, build] + search, '/')
  {
    hide Clean, Join;
    var logPath, prefix := Join(logs, '/'), Join(search, '/');
    assert IsName(logs[0]);
    JoinStarts(logs);
    NoPieces();
    if search != [] {
      assert IsName(search[0]);
      JoinStarts(search);
    }
    var front := [logPath, job, build];
    FrontIsKept(logPath, job, build, prefix);
    FrontJoins(logs, job, build);
    var all := logs + [job, build] + search;
    assert AreNames(all);
    NamesAreClean(all);
    if search == [] {
      assert front + [] == front && all == logs + [job, build];
    } else {
      JoinConcat(front, [prefix], '/');
      JoinConcat(logs + [job, build], search, '/');
      JoinOfOne(prefix);
    }
  }

  lemma JoinOfOne(piece: string)
    ensures Join([piece], '/') == piece
  {
  }

  lemma FrontIsKept(logPath: string, job: string, build: string, prefix: string)
    requires logPath != "" && job != "" && build != ""
    ensures NonEmpty([logPath, job, build, prefix]) == [logPath, job, build] + if prefix == "" then [] else [prefix]
  {
    NonEmptyConcat([logPath, job], [build, prefix]);
    NonEmptyConcat([logPath], [job]);
    NonEmptyConcat([build], [prefix]);
    NonEmptyOne(logPath);
    NonEmptyOne(job);
    NonEmptyOne(build);
    NonEmptyOne(prefix);
    hide NonEmpty;
    assert [logPath, job, build, prefix] == [logPath, job] + [build, prefix];
    assert [logPath, job] == [logPath] + [job] && [build, prefix] == [build] + [prefix];
  }

  lemma NonEmptyOne(element: string)
    ensures NonEmpty([element]) == if element == "" then [] else [element]
  {
    assert [element][1..] == [] && NonEmpty([]) == [];
  }

  lemma FrontJoins(logs: seq<string>, job: string, build: string)
    requires logs != []
    ensures Join([Join(logs, '/'), job, build], '/') == Join(logs + [job, build], '/')
  {
    JoinConcat(logs, [job, build], '/');
    JoinConcat([Join(logs, '/')], [job, build], '/');
    JoinOfOne(Join(logs, '/'));
    assert [Join(logs, '/')] + [job, build] == [Join(logs, '/'), job, build];
    hide Join;
  }

  lemma ShowDecides(a: seq<string>, b: seq<string>, rooted: bool)
    requires a != [] && b != []
    ensures Show(a, rooted) <= Show(b, rooted) <==> Join(a, '/') <= Join(b, '/')
  {
    hide Join;
    var p, q := Join(a, '/'), Join(b, '/');
    assert ("/" + p)[1..] == p && ("/" + q)[1..] == q;
    assert p <= q ==> "/" + p <= "/" + q;
  }

  /** A search prefix in which no piece is ".." stays below the directory of the build. */
  lemma SearchStaysInBuild(bucket: Bucket, job: string, n: int, prefix: string)
    requires ".." !in Split(prefix, '/')
    ensures bucket.DirPrefix(job, n) <= bucket.FilePrefix(job, n, prefix)
  {
    hide Split, Itoa, Join, Resolve, Show, PathJoin;
    var rooted, stack := PrefixStacks(bucket, job, n);
    var dir := stack + [Itoa(n)];
    ResolveGrows(dir, rooted, Split(prefix, '/'));
    JoinPrefix(dir, Resolve(dir, rooted, Split(prefix, '/')));
    ShowDecides(dir, Resolve(dir, rooted, Split(prefix, '/')), rooted);
  }

  /** A piece that names a file or a directory. */
  predicate IsName(piece: string) {
    piece != "" && piece != "." && piece != ".." && '/' !in piece
  }

  lemma ResolveUp(stack: seq<string>, top: string, rooted: bool, name: string)
    requires top != ".." && IsName(name)
    ensures Resolve(stack + [top], rooted, ["..", name]) == stack + [name]
  {
    assert (stack + [top])[..|stack|] == stack;
    assert ["..", name][1..] == [name] && [name][1..] == [];
    assert Resolve(stack, rooted, [name]) == Resolve(stack + [name], rooted, []) == stack + [name];
  }

  lemma SplitUp(name: string)
    requires IsName(name)
    ensures Split("../" + name, '/') == ["..", name]
  {
    SplitAtSeparator("..", name, '/');
    SplitWhole("..", '/');
    SplitWhole(name, '/');
    assert ".." + ['/'] + name == "../" + name;
    assert [".."] + [name] == ["..", name];
  }

  /** A search one level up stays below exactly when it names something that starts like the build. */
  lemma SearchOneLevelUp(bucket: Bucket, job: string, n: int, name: string)
    requires IsName(name)
    ensures bucket.DirPrefix(job, n) <= bucket.FilePrefix(job, n, "../" + name) <==> Itoa(n) <= name
  {
    hide Itoa, Join, Split, Resolve, Show, IsName, PathJoin;
    var rooted, stack := PrefixStacks(bucket, job, n);
    SplitUp(name);
    assert '.' in "..";
    ResolveUp(stack, Itoa(n), rooted, name);
    ShowDecides(stack + [Itoa(n)], stack + [name], rooted);
    LastPieceDecides(stack, Itoa(n), name);
  }

  /** So a search for a sibling whose name does not start like the build, nor the build's like its, finds nothing. */
  lemma SiblingIsNotFound(bucket: Bucket, job: string, n: int, name: string)
    requires IsName(name)
    ensures FindsNothing(bucket.DirPrefix(job, n), bucket.FilePrefix(job, n, "../" + name)) <==>
            !(Itoa(n) <= name) && !(name <= Itoa(n))
  {
    hide Itoa, Join, Split, Resolve, Show, IsName, PathJoin;
    var rooted, stack := PrefixStacks(bucket, job, n);
    SplitUp(name);
    assert '.' in "..";
    ResolveUp(stack, Itoa(n), rooted, name);
    ShowDecides(stack + [Itoa(n)], stack + [name], rooted);
    ShowDecides(stack + [name], stack + [Itoa(n)], rooted);
    LastPieceDecides(stack, Itoa(n), name);
    LastPieceDecides(stack, name, Itoa(n));
    FindsNothingExactly(bucket.DirPrefix(job, n), bucket.FilePrefix(job, n, "../" + name));
  }

  lemma LastPieceDecides(stack: seq<string>, a: string, b: string)
    ensures Join(stack + [a], '/') <= Join(stack + [b], '/') <==> a <= b
  {
    if stack == [] {
      assert stack + [a] == [a] && stack + [b] == [b];
    } else {
      JoinConcat(stack, [a], '/');
      JoinConcat(stack, [b], '/');
      var front := Join(stack, '/') + ['/'];
      assert a <= b ==> front + a <= front + b;
      assert (front + a)[|front|..] == a && (front + b)[|front|..] == b;
    }
  }

  // ----- Filtering the listing of the build -----

  lemma StartingOne(file: string, prefix: string)
    ensures Starting([file], prefix) == if prefix <= file then [file] else []
  {
    assert [file][1..] == [] && Starting([], prefix) == [];
  }

  /** A listing has the files that start with the prefix, each as often as the store has it, and no others. */
  lemma {:induction false} StartingCounts(files: seq<string>, prefix: string, file: string)
    ensures multiset(Starting(files, prefix))[file] == if prefix <= file then multiset(files)[file] else 0
  {
    if files != [] {
      var first, rest := files[0], files[1..];
      StartingCounts(rest, prefix, file);
      assert files == [first] + rest;
      StartingConcat([first], rest, prefix);
      StartingOne(first, prefix);
    }
  }

  lemma {:induction false} StartingTwice(files: seq<string>, short: string, long: string)
    requires short <= long
    ensures Starting(Starting(files, short), long) == Starting(files, long)
  {
    if files != [] {
      var first := files[0];
      StartingTwice(files[1..], short, long);
      StartingConcat([first], Starting(files[1..], short), long);
      StartingOne(first, long);
      assert long <= first ==> short == long[..|short|] == first[..|short|];
      assert !(short <= first) ==> Starting(files, short) == Starting(files[1..], short);
      assert !(long <= first) ==> Starting(files, long) == Starting(files[1..], long);
    }
  }

  /** Whatever the store holds, the filtered listing of a build is the direct one. */
  ghost predicate CacheIsExact(dir: string, search: string) {
    forall files :: Starting(Starting(files, dir), search) == Starting(files, search)
  }

  /** That is so exactly when the search prefix starts with the prefix of the build. */
  lemma CacheIsExactExactlyBelow(dir: string, search: string)
    ensures CacheIsExact(dir, search) <==> dir <= search
  {
    if dir <= search {
      forall files: seq<string> ensures Starting(Starting(files, dir), search) == Starting(files, search) {
        StartingTwice(files, dir, search);
      }
    } else {
      StartingOne(search, dir);
      StartingOne(search, search);
      assert Starting(Starting([search], dir), search) != Starting([search], search);
    }
  }

  /** Whatever the store holds, the cache finds nothing. */
  ghost predicate FindsNothing(dir: string, search: string) {
    forall files :: Starting(Starting(files, dir), search) == []
  }

  /** A search outside the build finds nothing exactly when neither prefix extends the other. */
  lemma FindsNothingExactly(dir: string, search: string)
    ensures FindsNothing(dir, search) <==> !(dir <= search) && !(search <= dir)
  {
    if dir <= search || search <= dir {
      var file := if dir <= search then search else dir;
      StartingOne(file, dir);
      StartingOne(file, search);
      assert Starting(Starting([file], dir), search) == [file];
    } else {
      forall files: seq<string> ensures Starting(Starting(files, dir), search) == [] {
        FoundStartsWithBoth(files, dir, search);
      }
    }
  }

  lemma FoundStartsWithBoth(files: seq<string>, dir: string, search: string)
    ensures Starting(Starting(files, dir), search) != [] ==> dir <= search || search <= dir
  {
    hide Starting;
    var found := Starting(Starting(files, dir), search);
    if found != [] {
      var file := found[0];
      assert multiset(found)[file] > 0;
      StartingCounts(Starting(files, dir), search, file);
      StartingCounts(files, dir, file);
      assert dir == file[..|dir|] && search == file[..|search|];
    }
  }

  /** One that is itself a prefix of the directory finds every file of the build, where the store would list more. */
  lemma {:induction false} ShortSearchFindsBuild(files: seq<string>, dir: string, search: string)
    requires search <= dir
    ensures Starting(Starting(files, dir), search) == Starting(files, dir)
  {
    if files != [] {
      var first, rest := files[0], files[1..];
      ShortSearchFindsBuild(rest, dir, search);
      StartingConcat([first], Starting(rest, dir), search);
      StartingOne(first, search);
      assert dir <= first ==> search == dir[..|search|] == first[..|search|];
      assert !(dir <= first) ==> Starting(files, dir) == Starting(rest, dir);
    }
  }

  lemma StartingNone(prefix: string)
    ensures Starting([], prefix) == []
  {
  }

  lemma StartingStep(files: seq<string>, prefix: string, i: nat)
    requires i < |files|
    ensures Starting(files[..i + 1], prefix) ==
            Starting(files[..i], prefix) + if prefix <= files[i] then [files[i]] else []
  {
    StartingConcat(files[..i], [files[i]], prefix);
    assert files[..i + 1] == files[..i] + [files[i]];
    assert [files[i]][1..] == [];
  }

  lemma {:induction false} StartingConcat(a: seq<string>, b: seq<string>, prefix: string)
    ensures Starting(a + b, prefix) == Starting(a, prefix) + Starting(b, prefix)
  {
    if a == [] {
      assert a + b == b;
    } else {
      assert (a + b)[1..] == a[1..] + b;
      StartingConcat(a[1..], b, prefix);
    }
  }

  // ----- The cache -----

  class Cache {
    const bucket: Bucket
    var cache: map<string, seq<string>>
    /** The directories whose listing succeeded, as often as it did. */
    ghost var listed: multiset<string>

    /** Every directory is listed at most once, and its listing is kept. */
    ghost predicate Valid()
      reads this
    {
      forall dir ::
        listed[dir] == (if dir in cache then 1 else 0) &&
        (dir in cache ==> cache[dir] == Starting(bucket.files, dir))
    }

    constructor (bucket: Bucket)
      ensures Valid() && this.bucket == bucket && cache == map[]
    {
      this.bucket := bucket;
      cache := map[];
      listed := multiset{};
    }

    /** One request to the store, which may fail. */
    method ListFilesInBuild(job: string, buildNumber: int, prefix: string, works: bool)
      returns (r: Result<seq<string>, string>)
      modifies this`listed
      ensures r.Ok? <==> works
      ensures works ==> r.value == bucket.Listing(job, buildNumber, prefix)
      ensures listed == old(listed) + if works then multiset{bucket.FilePrefix(job, buildNumber, prefix)}
        else multiset{}
    {
      if !works {
        return Err("listing failed");
      }
      listed := listed + multiset{bucket.FilePrefix(job, buildNumber, prefix)};
      return Ok(bucket.Listing(job, buildNumber, prefix));
    }

    /** `works` says whether the store answers, should it be asked. */
    method GetMatchingFiles(job: string, buildNumber: int, prefix: string, works: bool)
      returns (r: Result<seq<string>, string>)
      requires Valid()
      modifies this
      ensures Valid()
      ensures r.Err? <==> !works && bucket.DirPrefix(job, buildNumber) !in old(cache)
      ensures
        var dir, search := bucket.DirPrefix(job, buildNumber), bucket.FilePrefix(job, buildNumber, prefix);
        r.Ok? ==> r.value == Starting(Starting(bucket.files, dir), search)
      ensures r.Ok? && bucket.DirPrefix(job, buildNumber) <= bucket.FilePrefix(job, buildNumber, prefix) ==>
        r.value == bucket.Listing(job, buildNumber, prefix)
      ensures cache.Keys == old(cache).Keys + if r.Ok? then {bucket.DirPrefix(job, buildNumber)} else {}
    {
      hide PathJoin, Starting, CacheIsExact, FindsNothing;
      StartingNone(bucket.FilePrefix(job, buildNumber, prefix));
      var dirPrefix := bucket.FilePrefix(job, buildNumber, "/");
      var searchPrefix := bucket.FilePrefix(job, buildNumber, prefix);
      if dirPrefix !in cache {
        var result := ListFilesInBuild(job, buildNumber, "/", works);
        if result.Err? {
          return result;
        }
        cache := cache[dirPrefix := result.value];
        assert Valid();
      }
      var val := cache[dirPrefix];
      var matchedFiles := [];
      var i := 0;
      while i < |val|
        invariant 0 <= i <= |val|
        invariant matchedFiles == Starting(val[..i], searchPrefix)
        modifies {}
      {
        StartingStep(val, searchPrefix, i);
        if searchPrefix <= val[i] {
          matchedFiles := matchedFiles + [val[i]];
        }
        i := i + 1;
      }
      assert val[..i] == val;
      if dirPrefix <= searchPrefix {
        StartingTwice(bucket.files, dirPrefix, searchPrefix);
      }
      return Ok(matchedFiles);
    }
  }
}
