/** The R2DBC variant's entry point: command-line settings, the benchmark
    name they produce, and the launch decision. */
module R2dbcMain {
  import opened Wrappers
  import opened KotlinText

  /** The three settings, in argument order. */
  datatype Settings = Settings(isSharedPool: bool, poolSize: int, useOptimizedConfig: bool)

  const DEFAULT_SETTINGS: Settings := Settings(true, 512, true)

  const BASE_NAME: string := "Vert.x-Web Kotlinx with R2DBC (and PostgreSQL)"
  const SHARED_POOL: string := "Shared Pool Size "
  const SEPARATE_POOL: string := "Separate Pool Size "
  const OPTIMIZED: string := " Optimized"

  /** `args.getOrNull(i)`. */
  function ArgAt(args: seq<string>, i: nat): (r: Option<string>)
    ensures r.Some? <==> i < |args|
    ensures r.Some? ==> r.value == args[i]
  {
    if i < |args| then Some(args[i]) else None
  }

  /** `?.toBooleanStrictOrNull() ?: true`. */
  function FlagOrTrue(arg: Option<string>): (b: bool)
    ensures !b <==> arg == Some("false")
  {
    match arg
    case None => true
    case Some(s) => match ToBooleanStrictOrNull(s) case Some(b) => b case None => true
  }

  /** `?.toIntOrNull() ?: 512`. */
  function SizeOr512(arg: Option<string>): (n: int)
    ensures IsInt(n)
  {
    match arg
    case None => 512
    case Some(s) => match ToIntOrNull(s) case Some(v) => v case None => 512
  }

  /** The settings the arguments select. */
  function ParseArgs(args: seq<string>): (s: Settings)
    ensures IsInt(s.poolSize)
  {
    Settings(FlagOrTrue(ArgAt(args, 0)), SizeOr512(ArgAt(args, 1)), FlagOrTrue(ArgAt(args, 2)))
  }

  /** `benchmarkName`: the base name, then what the builder appends. */
  function BenchmarkName(s: Settings): (name: string)
    ensures |name| >= |BASE_NAME| && name[..|BASE_NAME|] == BASE_NAME
  {
    BASE_NAME + Details(s)
  }

  /** Unless every setting is the default: " - ", the pool description and
      " Optimized" when optimized. */
  function Details(s: Settings): string
  {
    if !s.isSharedPool || s.poolSize != 512 || !s.useOptimizedConfig then
      " - " + PoolDescription(s) + (if s.useOptimizedConfig then OPTIMIZED else "")
    else ""
  }

  /** "Shared Pool Size N" or "Separate Pool Size N". */
  function PoolDescription(s: Settings): string
  {
    (if s.isSharedPool then SHARED_POOL else SEPARATE_POOL) + IntToString(s.poolSize)
  }

  /** The shared-pool flag is off exactly when the first argument is
      "false"; a missing argument and anything else ("False", "0") leave it on. */
  lemma SharedPoolFlag(args: seq<string>)
    ensures !ParseArgs(args).isSharedPool <==> |args| > 0 && args[0] == "false"
    ensures !ParseArgs(args).useOptimizedConfig <==> |args| > 2 && args[2] == "false"
  {
  }

  /** The pool size is the second argument when it is an `Int` numeral, and
      512 otherwise. */
  lemma PoolSizeArgument(args: seq<string>)
    ensures |args| > 1 && ToIntOrNull(args[1]).Some? ==> ParseArgs(args).poolSize == ToIntOrNull(args[1]).value
    ensures |args| <= 1 || ToIntOrNull(args[1]).None? ==> ParseArgs(args).poolSize == 512
  {
  }

  /** Rendering any settings as arguments and parsing them gives them back. */
  lemma ParseArgsRoundTrip(s: Settings)
    requires IsInt(s.poolSize)
    ensures ParseArgs([BooleanToString(s.isSharedPool), IntToString(s.poolSize), BooleanToString(s.useOptimizedConfig)]) == s
  {
    ToIntOrNullOfIntToString(s.poolSize);
  }

  lemma ParseArgsExamples()
    ensures ParseArgs([]) == DEFAULT_SETTINGS
    ensures ParseArgs(["TRUE", "abc", "0"]) == DEFAULT_SETTINGS
    ensures ParseArgs(["false", "8", "false"]) == Settings(false, 8, false)
  {
    assert ToIntOrNull("abc") == None;
    ParseArgsRoundTrip(Settings(false, 8, false));
    assert IntToString(8) == "8";
  }

  lemma DropPrefix(x: string, u: string, v: string)
    requires x + u == x + v
    ensures u == v
  {
    assert u == (x + u)[|x|..];
    assert v == (x + v)[|x|..];
  }

  lemma DropSuffix(u: string, v: string, t: string)
    requires u + t == v + t
    ensures u == v
  {
    assert u == (u + t)[..|u|];
    assert v == (v + t)[..|v|];
  }

  /** The name is the bare base name exactly for the default settings. */
  lemma BaseNameIffDefault(s: Settings)
    ensures BenchmarkName(s) == BASE_NAME <==> s == DEFAULT_SETTINGS
  {
    if s != DEFAULT_SETTINGS {
      assert |BenchmarkName(s)| > |BASE_NAME|;
    }
  }

  /** Outside the default, the name ends with " Optimized" exactly when the
      optimized flag is on; without it the name ends with the pool size's
      last digit. */
  predicate EndsWith(s: string, suffix: string)
  {
    |suffix| <= |s| && s[|s| - |suffix|..] == suffix
  }

  lemma OptimizedSuffixIff(s: Settings)
    requires s != DEFAULT_SETTINGS
    ensures EndsWith(BenchmarkName(s), OPTIMIZED) <==> s.useOptimizedConfig
  {
    var pool := PoolDescription(s);
    Associate(BASE_NAME, " - " + pool, if s.useOptimizedConfig then OPTIMIZED else "");
    EndsWithDigit(BASE_NAME + " - ", s);
    EndsWithIffAppended(BASE_NAME + " - " + pool, OPTIMIZED, s.useOptimizedConfig);
  }

  /** Any text followed by the pool description ends with a digit. */
  lemma EndsWithDigit(prefix: string, s: Settings)
    ensures IsDigit((prefix + PoolDescription(s))[|prefix + PoolDescription(s)| - 1])
  {
    LastOfAppend(if s.isSharedPool then SHARED_POOL else SEPARATE_POOL, IntToString(s.poolSize));
    LastOfAppend(prefix, PoolDescription(s));
  }

  /** Appending a suffix or nothing to a text that does not end like it: the
      result ends with the suffix exactly when it was appended. */
  lemma EndsWithIffAppended(head: string, suffix: string, appended: bool)
    requires head != [] && suffix != [] && head[|head| - 1] != suffix[|suffix| - 1]
    ensures EndsWith(head + (if appended then suffix else ""), suffix) <==> appended
  {
    if appended {
      EndsWithAppend(head, suffix);
    } else {
      assert head + "" == head;
      NotEndsWithLast(head, suffix);
    }
  }

  lemma EndsWithAppend(x: string, y: string)
    ensures EndsWith(x + y, y)
  {
    assert (x + y)[|x|..] == y;
  }

  lemma LastOfAppend(x: string, y: string)
    requires y != []
    ensures (x + y)[|x + y| - 1] == y[|y| - 1]
  {
  }

  lemma NotEndsWithLast(x: string, suffix: string)
    requires x != [] && suffix != [] && x[|x| - 1] != suffix[|suffix| - 1]
    ensures !EndsWith(x, suffix)
  {
    if |suffix| <= |x| {
      assert x[|x| - |suffix|..][|suffix| - 1] == x[|x| - 1];
    }
  }

  /** What the builder appends after the base name: nothing for the
      defaults, the pool description and the optimized marker otherwise. */
  lemma DefaultNameExample()
    ensures Details(DEFAULT_SETTINGS) == ""
  {
  }

  lemma SharedPoolNameExample()
    ensures Details(Settings(true, 8, true)) == " - " + "Shared Pool Size " + "8" + " Optimized"
  {
    assert IntToString(8) == "8";
  }

  lemma SeparatePoolNameExample()
    ensures Details(Settings(false, 512, false)) == " - " + "Separate Pool Size " + "512"
  {
    assert IntToString(512) == "512";
  }

  /** The pool description determines the pool mode and the size. */
  lemma PoolDescriptionInjective(a: Settings, b: Settings)
    requires PoolDescription(a) == PoolDescription(b)
    ensures a.isSharedPool == b.isSharedPool && a.poolSize == b.poolSize
  {
    var pa := if a.isSharedPool then SHARED_POOL else SEPARATE_POOL;
    var pb := if b.isSharedPool then SHARED_POOL else SEPARATE_POOL;
    assert PoolDescription(a)[1] == pa[1];
    assert PoolDescription(b)[1] == pb[1];
    DropPrefix(pa, IntToString(a.poolSize), IntToString(b.poolSize));
    IntToStringInjective(a.poolSize, b.poolSize);
  }

  /** Different settings give different names. */
  lemma BenchmarkNameInjective(a: Settings, b: Settings)
    requires BenchmarkName(a) == BenchmarkName(b)
    ensures a == b
  {
    DropPrefix(BASE_NAME, Details(a), Details(b));
    if a == DEFAULT_SETTINGS || b == DEFAULT_SETTINGS {
      BaseNameIffDefault(a);
      BaseNameIffDefault(b);
    } else {
      OptimizedSuffixIff(a);
      OptimizedSuffixIff(b);
      var tail := if a.useOptimizedConfig then OPTIMIZED else "";
      DropSuffix(" - " + PoolDescription(a), " - " + PoolDescription(b), tail);
      DropPrefix(" - ", PoolDescription(a), PoolDescription(b));
      PoolDescriptionInjective(a, b);
    }
  }

  /** The pool configuration a shared-pool launch uses. */
  datatype PoolConfig = OptimizedPool(size: int) | OriginalPool(size: int)

  /** The verticle each server instance is built from. */
  datatype VerticleKind = SharedPoolVerticle(pool: PoolConfig) | SeparatePoolVerticle(poolSize: int, optimized: bool)

  datatype Launch = Launch(benchmarkName: string, verticle: VerticleKind)

  datatype StartError = IllegalState(message: string)

  const SEPARATE_POOL_MESSAGE: string := "Separate pool mode requires MainVerticleWithSeparatePool"

  /** `main` up to the server launch: choose the connection factory (a
      separate pool throws), then launch with the verticle for the pool mode. */
  function Start(args: seq<string>): (r: Result<Launch, StartError>)
    ensures r.Err? <==> !ParseArgs(args).isSharedPool
    ensures r.Err? ==> r.error == IllegalState(SEPARATE_POOL_MESSAGE)
    ensures r.Ok? ==> r.value.verticle.SharedPoolVerticle?
    ensures r.Ok? ==> r.value.benchmarkName == BenchmarkName(ParseArgs(args))
    ensures r.Ok? ==> r.value.verticle.pool.size == ParseArgs(args).poolSize
                      && (r.value.verticle.pool.OptimizedPool? <==> ParseArgs(args).useOptimizedConfig)
  {
    var s := ParseArgs(args);
    var name := BenchmarkName(s);
    var factory: Result<PoolConfig, StartError> :=
      if s.isSharedPool then
        Ok(if s.useOptimizedConfig then OptimizedPool(s.poolSize) else OriginalPool(s.poolSize))
      else Err(IllegalState(SEPARATE_POOL_MESSAGE));
    match factory
    case Err(e) => Err(e)
    case Ok(pool) =>
      if s.isSharedPool then Ok(Launch(name, SharedPoolVerticle(pool)))
      else Ok(Launch(name, SeparatePoolVerticle(s.poolSize, s.useOptimizedConfig)))
  }
}
