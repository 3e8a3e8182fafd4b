/**
 * The shape of an ffmpeg invocation as the bot spawns it: an argument vector
 * and a `stdio` plan. ffmpeg reads and writes descriptor N when an argument
 * is `pipe:N`; the spawn only opens a pipe for the indexes the plan marks
 * "pipe".
 */
module FfmpegPlan {
  import opened Wrappers
  import opened JsText

  /** One entry of a spawn `stdio` array: `undefined`, "pipe" or "inherit". */
  datatype Stdio = Unset | Pipe | Inherit

  /** The argument `pipe:N` for a one-digit descriptor N. */
  function PipeArg(n: nat): string
    requires n < 10
  {
    "pipe:" + [('0' as int + n) as char]
  }

  /**
   * The descriptor an argument names under ffmpeg's pipe protocol (one digit
   * here): the argument names descriptor N exactly when it reads `pipe:N`.
   */
  function PipeIndex(arg: string): (r: Option<nat>)
    ensures r.Some? ==> r.value < 10
    ensures forall n :: 0 <= n < 10 ==> (r == Some(n) <==> arg == PipeArg(n))
  {
    if |arg| == 6 && arg[..5] == "pipe:" && IsDecimalDigit(arg[5]) then
      assert arg == arg[..5] + [arg[5]];
      Some(arg[5] as int - '0' as int)
    else None
  }

  /** The descriptors an argument vector names. */
  function PipesNamed(args: seq<string>): set<nat> {
    set k | 0 <= k < |args| && PipeIndex(args[k]).Some? :: PipeIndex(args[k]).value
  }

  /** Every `pipe:N` in the arguments has "pipe" at index N of the stdio plan. */
  predicate PipesWired(args: seq<string>, stdio: seq<Stdio>) {
    forall n :: n in PipesNamed(args) ==> n < |stdio| && stdio[n] == Pipe
  }

  /** The descriptors named by the arguments at the given positions, where no other argument names one. */
  lemma PipesNamedAt(args: seq<string>, at: set<nat>, named: set<nat>)
    requires forall k :: k in at ==> k < |args| && PipeIndex(args[k]).Some?
    requires forall k :: 0 <= k < |args| && k !in at ==> PipeIndex(args[k]).None?
    requires named == set k | k in at :: PipeIndex(args[k]).value
    ensures PipesNamed(args) == named
  {
  }

}
