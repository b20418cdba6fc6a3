/** The local keyword detector (censor/local.py, `LocalCensor`): a small state machine
    over "built", "shut down", the worker pool and the matcher. The Aho-Corasick
    matcher is external; its `build` and `find` are the `Engine` parameters. */
module Local {
  import opened Wrappers
  import opened CensorTypes

  const ClosingMessage := "实例正在关闭"
  const InvalidPatternPrefix := "无效模式: "
  const BuildFailedPrefix := "构建失败: "
  const DetectFailedPrefix := "文本检测失败: "
  const ImageNotImplemented := "未实现本地图片审核"

  /** An `AhoMatcher`: its logic-expression switch and the pattern set it was built
      from (`None` while it is fresh). */
  datatype Matcher = Matcher(useLogic: bool, patterns: Option<set<string>>)

  /** The one-worker `ThreadPoolExecutor`, or its absence before the first build. */
  datatype Executor = NoExecutor | Pool(closed: bool)

  /** What `AhoMatcher.build` does: it succeeds, raises `ValueError`, or raises
      something else; `message` is `str(e)`. */
  datatype BuildOutcome = Compiled | InvalidPattern(message: string) | CompileFailed(message: string)

  /** The external matcher: building it from a pattern set, and the set of patterns a
      built matcher finds in a text (or the exception it raises). */
  datatype Engine = Engine(
    compile: (Matcher, set<string>) -> BuildOutcome,
    find: (Matcher, string) -> Result<set<string>>)

  /** The fields an instance updates: `_matcher`, `_is_built`, `_shutdown`, `_executor`. */
  datatype LocalState = LocalState(matcher: Matcher, isBuilt: bool, shutdown: bool, executor: Executor)

  /** A new state together with what the operation returned or raised. */
  datatype Step<T> = Step(state: LocalState, result: Result<T>)

  /** The invariant every operation keeps: the instance is shut down exactly when its
      pool is closed, a built instance holds a built matcher and a live pool, and the
      matcher keeps the configured logic switch. */
  predicate Coherent(s: LocalState, useLogic: bool)
  {
    && s.matcher.useLogic == useLogic
    && (s.shutdown <==> s.executor == Pool(true))
    && (s.isBuilt ==> !s.shutdown && s.executor == Pool(false) && s.matcher.patterns.Some?)
  }

  function FreshMatcher(useLogic: bool): Matcher
  {
    Matcher(useLogic, None)
  }

  /** The state right after construction. */
  function Initial(useLogic: bool): LocalState
  {
    LocalState(FreshMatcher(useLogic), false, false, NoExecutor)
  }

  /** `_reinitialize`: not shut down, not built, a fresh matcher and a fresh pool. */
  function Reinitialized(useLogic: bool): LocalState
  {
    LocalState(FreshMatcher(useLogic), false, false, Pool(false))
  }

  /** `build(patterns)`. */
  function AfterBuild(s: LocalState, useLogic: bool, engine: Engine, patterns: set<string>): Step<()>
  {
    var s1 := if s.shutdown then Reinitialized(useLogic) else s;
    if s1.isBuilt then Step(s1, Ok(()))
    else
      var s2 := if s1.executor.NoExecutor? || s1.executor.closed then s1.(executor := Pool(false)) else s1;
      match engine.compile(s2.matcher, patterns)
      case Compiled => Step(s2.(matcher := s2.matcher.(patterns := Some(patterns)), isBuilt := true), Ok(()))
      case InvalidPattern(m) => Step(s2, Err(CensorError(InvalidPatternPrefix + m)))
      case CompileFailed(m) => Step(s2, Err(CensorError(BuildFailedPrefix + m)))
  }

  /** `close()`. */
  function AfterClose(s: LocalState): LocalState
  {
    if s.executor.Pool? && !s.shutdown then s.(executor := Pool(true), shutdown := true, isBuilt := false)
    else s
  }

  /** `detect_text(text)`: an unbuilt instance first builds with the patterns it was
      constructed with. */
  function AfterDetectText(s: LocalState, useLogic: bool, engine: Engine, initialPatterns: set<string>, text: string): Step<Verdict>
  {
    var b := if !s.isBuilt then AfterBuild(s, useLogic, engine, initialPatterns) else Step(s, Ok(()));
    if b.result.Err? then Step(b.state, Err(b.result.fault))
    else if b.state.shutdown then Step(b.state, Err(CensorError(ClosingMessage)))
    else
      match engine.find(b.state.matcher, text)
      case Err(e) => Step(b.state, Err(CensorError(DetectFailedPrefix + e.message)))
      case Ok(found) => Step(b.state, Ok(if found != {} then Verdict(Block, found) else Verdict(Pass, {})))
  }

  /** `detect_image(image)`: it never builds and never looks at the image. */
  function DetectImageResult(s: LocalState): Result<Verdict>
  {
    if s.shutdown then Err(CensorError(ClosingMessage)) else Ok(Verdict(Review, {ImageNotImplemented}))
  }

  class LocalCensor {
    const useLogic: bool
    const initialPatterns: set<string>
    const engine: Engine
    var matcher: Matcher
    var isBuilt: bool
    var shutdown: bool
    var executor: Executor

    function State(): LocalState
      reads this
    {
      LocalState(matcher, isBuilt, shutdown, executor)
    }

    predicate Valid()
      reads this
    {
      Coherent(State(), useLogic)
    }

    /** `LocalCensor(config)`: `patterns` defaults to the empty set and `use_logic` to
        true. */
    constructor (patterns: Option<set<string>>, useLogic: Option<bool>, engine: Engine)
      ensures Valid()
      ensures this.useLogic == useLogic.GetOr(true) && initialPatterns == patterns.GetOr({}) && this.engine == engine
      ensures State() == Initial(this.useLogic)
    {
      this.useLogic := useLogic.GetOr(true);
      initialPatterns := patterns.GetOr({});
      this.engine := engine;
      matcher := FreshMatcher(useLogic.GetOr(true));
      isBuilt := false;
      shutdown := false;
      executor := NoExecutor;
    }

    method Reinitialize()
      modifies this
      ensures State() == Reinitialized(useLogic)
    {
      shutdown := false;
      isBuilt := false;
      matcher := FreshMatcher(useLogic);
      executor := Pool(false);
    }

    method Build(patterns: set<string>) returns (r: Result<()>)
      requires Valid()
      modifies this
      ensures Valid()
      ensures Step(State(), r) == AfterBuild(old(State()), useLogic, engine, patterns)
    {
      if shutdown {
        Reinitialize();
      }
      if isBuilt {
        return Ok(());
      }
      if executor.NoExecutor? || executor.closed {
        executor := Pool(false);
      }
      match engine.compile(matcher, patterns)
      case Compiled =>
        matcher := matcher.(patterns := Some(patterns));
        isBuilt := true;
        r := Ok(());
      case InvalidPattern(m) =>
        r := Err(CensorError(InvalidPatternPrefix + m));
      case CompileFailed(m) =>
        r := Err(CensorError(BuildFailedPrefix + m));
    }

    method Close()
      requires Valid()
      modifies this
      ensures Valid()
      ensures State() == AfterClose(old(State()))
    {
      if executor.Pool? && !shutdown {
        executor := Pool(true);
        shutdown := true;
        isBuilt := false;
      }
    }

    method DetectText(text: string) returns (r: Result<Verdict>)
      requires Valid()
      modifies this
      ensures Valid()
      ensures Step(State(), r) == AfterDetectText(old(State()), useLogic, engine, initialPatterns, text)
    {
      if !isBuilt {
        var b := Build(initialPatterns);
        if b.Err? {
          return Err(b.fault);
        }
      }
      if shutdown {
        return Err(CensorError(ClosingMessage));
      }
      match engine.find(matcher, text)
      case Err(e) =>
        r := Err(CensorError(DetectFailedPrefix + e.message));
      case Ok(found) =>
        r := Ok(if found != {} then Verdict(Block, found) else Verdict(Pass, {}));
    }

    method DetectImage(image: string) returns (r: Result<Verdict>)
      requires Valid()
      ensures r.Err? <==> shutdown
      ensures r.Err? ==> r.fault == CensorError(ClosingMessage)
      ensures r.Ok? ==> r.value == Verdict(Review, {ImageNotImplemented})
    {
      if shutdown {
        return Err(CensorError(ClosingMessage));
      }
      r := Ok(Verdict(Review, {ImageNotImplemented}));
    }
  }

  // ---------------------------------------------------------------------------
  // Properties of the lifecycle

  /** Every operation keeps the invariant, from construction on. */
  lemma StepsKeepCoherent(s: LocalState, useLogic: bool, engine: Engine, patterns: set<string>, text: string)
    requires Coherent(s, useLogic)
    ensures Coherent(Initial(useLogic), useLogic) && Coherent(Reinitialized(useLogic), useLogic)
    ensures Coherent(AfterBuild(s, useLogic, engine, patterns).state, useLogic)
    ensures Coherent(AfterClose(s), useLogic)
    ensures Coherent(AfterDetectText(s, useLogic, engine, patterns, text).state, useLogic)
  {
  }

  /** Building a built instance changes nothing, whatever patterns are passed. */
  lemma BuildWhenBuiltIsNoop(s: LocalState, useLogic: bool, engine: Engine, patterns: set<string>)
    requires Coherent(s, useLogic) && s.isBuilt
    ensures AfterBuild(s, useLogic, engine, patterns) == Step(s, Ok(()))
  {
  }

  /** Building an unbuilt instance (or one that was closed, which is first
      re-initialised) compiles the given patterns into its matcher — a fresh one after a
      close — and leaves it built with a live pool; a failed compilation leaves it
      unbuilt and reports an invalid pattern or a failed build. */
  lemma BuildOutcomes(s: LocalState, useLogic: bool, engine: Engine, patterns: set<string>)
    requires Coherent(s, useLogic) && (!s.isBuilt || s.shutdown)
    ensures var m := if s.shutdown then FreshMatcher(useLogic) else s.matcher;
      var step := AfterBuild(s, useLogic, engine, patterns);
      && !step.state.shutdown && step.state.executor == Pool(false)
      && (engine.compile(m, patterns) == Compiled ==>
            step == Step(LocalState(m.(patterns := Some(patterns)), true, false, Pool(false)), Ok(())))
      && (engine.compile(m, patterns).InvalidPattern? ==>
            step == Step(LocalState(m, false, false, Pool(false)),
                         Err(CensorError(InvalidPatternPrefix + engine.compile(m, patterns).message))))
      && (engine.compile(m, patterns).CompileFailed? ==>
            step == Step(LocalState(m, false, false, Pool(false)),
                         Err(CensorError(BuildFailedPrefix + engine.compile(m, patterns).message))))
  {
  }

  /** Closing a live instance shuts it down and unbuilds it; closing again, or closing
      before the first build, changes nothing. */
  lemma CloseEffects(s: LocalState, useLogic: bool)
    requires Coherent(s, useLogic)
    ensures s.executor.Pool? && !s.shutdown ==> AfterClose(s).shutdown && !AfterClose(s).isBuilt
    ensures AfterClose(AfterClose(s)) == AfterClose(s)
    ensures s.executor.NoExecutor? ==> AfterClose(s) == s
  {
  }

  /** Lazy build: an unbuilt instance searches with a matcher built from the patterns
      it was constructed with, not from any pattern set passed to an earlier (failed)
      build. */
  lemma LazyBuildUsesInitialPatterns(s: LocalState, useLogic: bool, engine: Engine, initialPatterns: set<string>, text: string)
    requires Coherent(s, useLogic) && !s.isBuilt
    requires engine.compile(if s.shutdown then FreshMatcher(useLogic) else s.matcher, initialPatterns) == Compiled
    ensures var m := (if s.shutdown then FreshMatcher(useLogic) else s.matcher).(patterns := Some(initialPatterns));
      && AfterDetectText(s, useLogic, engine, initialPatterns, text).state == LocalState(m, true, false, Pool(false))
      && (engine.find(m, text).Ok? ==>
            AfterDetectText(s, useLogic, engine, initialPatterns, text).result.Ok?)
  {
  }

  /** The verdict is Block with exactly the found patterns when something is found,
      and Pass with no reasons otherwise. */
  lemma DetectTextVerdict(s: LocalState, useLogic: bool, engine: Engine, initialPatterns: set<string>, text: string)
    requires Coherent(s, useLogic) && s.isBuilt
    ensures var step := AfterDetectText(s, useLogic, engine, initialPatterns, text);
      && step.state == s
      && (engine.find(s.matcher, text).Ok? && engine.find(s.matcher, text).value != {} ==>
            step.result == Ok(Verdict(Block, engine.find(s.matcher, text).value)))
      && (engine.find(s.matcher, text) == Ok({}) ==> step.result == Ok(Verdict(Pass, {})))
      && (engine.find(s.matcher, text).Err? ==>
            step.result == Err(CensorError(DetectFailedPrefix + engine.find(s.matcher, text).fault.message)))
  {
  }

  /** In sequential use `detect_text` never reports that the instance is closing:
      after a `close` it rebuilds instead, and the build and search errors carry other
      prefixes. */
  lemma {:induction false} DetectTextNeverClosing(s: LocalState, useLogic: bool, engine: Engine, initialPatterns: set<string>, text: string)
    requires Coherent(s, useLogic)
    ensures AfterDetectText(s, useLogic, engine, initialPatterns, text).result != Err(CensorError(ClosingMessage))
  {
    var step := AfterDetectText(s, useLogic, engine, initialPatterns, text);
    if step.result.Err? {
      var msg := step.result.fault.message;
      assert msg[0] != ClosingMessage[0] by {
        var b := if !s.isBuilt then AfterBuild(s, useLogic, engine, initialPatterns) else Step(s, Ok(()));
        assert !b.state.shutdown;
        if b.result.Err? {
          assert msg[0] == InvalidPatternPrefix[0] || msg[0] == BuildFailedPrefix[0];
        } else {
          assert msg[0] == DetectFailedPrefix[0];
        }
      }
    }
  }

  /** `detect_image` raises only once shut down, and otherwise always answers Review
      with the not-implemented reason. */
  lemma DetectImageOutcome(s: LocalState)
    ensures DetectImageResult(s).Err? <==> s.shutdown
    ensures !s.shutdown ==> DetectImageResult(s) == Ok(Verdict(Review, {ImageNotImplemented}))
  {
  }
}
