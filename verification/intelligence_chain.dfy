/** `create_provider`: choosing the enrichment provider at start-up. The
    settings name a provider; MLX is tried only for a downloaded model and
    falls back to IntelligenceKit, which falls back to a provider that
    refuses everything with a reason. */
module IntelligenceChain {
  import opened Wrappers
  import MlxProvider
  import IntelligenceKit
  import LlmModels
  import Venv
  import Utf8

  /** The active provider. */
  datatype Active =
    | Mlx(mlx: MlxProvider.Provider)
    | Kit(link: IntelligenceKit.Link)
    | NoOp(reason: string)

  /** The active provider and, when it is MLX, the handle kept for model
      switching. */
  datatype Chosen = Chosen(active: Active, mlx: Option<MlxProvider.Provider>)

  /** The intelligence settings the choice reads. */
  datatype Settings = Settings(provider: string, activeModel: string, pythonPath: string)

  /** What the choice meets: the models directory and whether a path
      exists, the virtual environment, how the MLX sidecar starts with a
      given interpreter, and how starting IntelligenceKit ends. */
  datatype Env = Env(
    modelsDir: string,
    present: string -> bool,
    venvDir: string,
    venv: Venv.Disk,
    sha: seq<Utf8.byte> -> string,
    launch: string -> MlxProvider.Launch,
    sidecar: MlxProvider.Sidecar,
    kit: Result<IntelligenceKit.Link>)

  const API_NOT_IMPLEMENTED: string := "API provider not implemented"

  /** `try_intelligencekit_fallback`: IntelligenceKit, or a refusing
      provider carrying its start-up error. */
  function KitFallback(kit: Result<IntelligenceKit.Link>): (c: Chosen)
    ensures c.mlx.None?
    ensures kit.Ok? ==> c.active == Kit(kit.value)
    ensures kit.Err? ==> c.active == NoOp(kit.error)
  {
    match kit
    case Ok(link) => Chosen(Kit(link), None)
    case Err(e) => Chosen(NoOp(e), None)
  }

  /** The interpreter the MLX sidecar is started with. */
  function PythonFor(s: Settings, env: Env): string {
    Venv.ResolvePythonPath(env.venv, env.sha, env.venvDir, s.pythonPath)
  }

  /** The model directory of the active model. */
  function ModelPathFor(s: Settings, env: Env): string {
    LlmModels.ModelPath(env.modelsDir, s.activeModel)
  }

  /** `create_provider`. */
  function CreateProvider(s: Settings, env: Env): (c: Chosen)
    ensures c.mlx.Some? <==> c.active.Mlx?
    ensures c.mlx.Some? ==> c.mlx.value == c.active.mlx
    ensures c.active.Mlx? ==> s.provider == "mlx"
    ensures s.provider == "intelligencekit" ==> c == KitFallback(env.kit)
    ensures s.provider == "api" ==> c == Chosen(NoOp(API_NOT_IMPLEMENTED), None)
    ensures s.provider !in {"mlx", "intelligencekit", "api"} ==>
      c == Chosen(NoOp("Unknown provider: " + s.provider), None)
  {
    if s.provider == "mlx" then
      var path := ModelPathFor(s, env);
      if !env.present(path) then KitFallback(env.kit)
      else
        var python := PythonFor(s, env);
        match MlxProvider.New(env.launch(python), env.sidecar, path, python)
        case Ok(p) => Chosen(Mlx(p), Some(p))
        case Err(_) => KitFallback(env.kit)
    else if s.provider == "intelligencekit" then KitFallback(env.kit)
    else if s.provider == "api" then Chosen(NoOp(API_NOT_IMPLEMENTED), None)
    else Chosen(NoOp("Unknown provider: " + s.provider), None)
  }

  /** MLX is active exactly when it was requested, the model is on disk,
      and the sidecar started with the resolved interpreter on that model;
      the active provider is then the started one. */
  lemma {:induction false} MlxActiveIff(s: Settings, env: Env)
    ensures CreateProvider(s, env).active.Mlx? <==>
      && s.provider == "mlx"
      && env.present(ModelPathFor(s, env))
      && MlxProvider.New(env.launch(PythonFor(s, env)), env.sidecar, ModelPathFor(s, env), PythonFor(s, env)).Ok?
    ensures CreateProvider(s, env).active.Mlx? ==>
      CreateProvider(s, env).active.mlx
        == MlxProvider.New(env.launch(PythonFor(s, env)), env.sidecar, ModelPathFor(s, env), PythonFor(s, env)).value
  {
  }

  /** When MLX is requested but cannot be used, the result is whatever
      IntelligenceKit's fallback gives, whatever went wrong. */
  lemma {:induction false} MlxFailureFallsBack(s: Settings, env: Env)
    requires s.provider == "mlx"
    requires !CreateProvider(s, env).active.Mlx?
    ensures CreateProvider(s, env) == KitFallback(env.kit)
  {
  }

  /** A model that is not on disk never starts the sidecar: the choice does
      not depend on the interpreter, the environment or the sidecar. */
  lemma {:induction false} MissingModelIgnoresSidecar(s: Settings, env: Env, other: Env)
    requires s.provider == "mlx"
    requires other.modelsDir == env.modelsDir && other.present == env.present && other.kit == env.kit
    requires !env.present(ModelPathFor(s, env))
    ensures CreateProvider(s, env) == CreateProvider(s, other)
  {
  }

  /** The refusing provider is chosen only with a reason from this list. */
  lemma {:induction false} NoOpReasons(s: Settings, env: Env)
    requires CreateProvider(s, env).active.NoOp?
    ensures var reason := CreateProvider(s, env).active.reason;
      || (env.kit.Err? && reason == env.kit.error)
      || reason == API_NOT_IMPLEMENTED
      || reason == "Unknown provider: " + s.provider
  {
  }

  /** A missing interpreter makes MLX fall back. */
  lemma {:induction false} PythonNotFoundFallsBack(s: Settings, env: Env)
    requires s.provider == "mlx"
    requires env.launch(PythonFor(s, env)).python == MlxProvider.PythonNotFound
    ensures CreateProvider(s, env) == KitFallback(env.kit)
  {
  }

  /** A ready environment whose interpreter exists is the one MLX uses. */
  lemma {:induction false} ReadyVenvInterpreter(s: Settings, env: Env)
    requires Venv.StatusOf(env.venv, env.sha) == Venv.Ready && env.venv.pythonExists
    ensures PythonFor(s, env) == Venv.VenvPython(env.venvDir)
  {
  }
}
