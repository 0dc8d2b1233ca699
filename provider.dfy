/** Which model backend and which model name a run uses: the provider resolution of the
    `summarize` and `analyze` nodes (src/llm/langGraphFlow.js:48-50 and 83-85) and
    `chooseModel` (src/llm/langGraphFlow.js:147-153). The environment variables are
    parameters; an unset variable is the empty string, which is just as falsy. */
module Provider {
  import opened Text

  /** The two clients: `analyzeWithGemini` and `analyzeWithOllama`. */
  datatype Backend = Gemini | Ollama

  /** `LLM_PROVIDER`, `GEMINI_MODEL` and `OLLAMA_MODEL`; `""` when unset. */
  datatype Env = Env(llmProvider: string, geminiModel: string, ollamaModel: string)

  const DefaultProvider := "gemini"
  const DefaultGeminiModel := "gemini-1.5-pro"
  const DefaultOllamaModel := "llama3"

  /** `a || b` on strings, `undefined` being the empty string. */
  function Or(a: string, b: string): string
  {
    if a != "" then a else b
  }

  /** `s.toLowerCase()` on ASCII letters. */
  function Lower(s: string): (r: string)
    ensures |r| == |s|
    ensures forall i :: 0 <= i < |s| ==> r[i] == LowerAscii(s[i])
  {
    seq(|s|, i requires 0 <= i < |s| => LowerAscii(s[i]))
  }

  /** `(state.provider || process.env.LLM_PROVIDER || 'gemini').toLowerCase()` */
  function ResolveProvider(requested: string, env: Env): string
  {
    Lower(Or(Or(requested, env.llmProvider), DefaultProvider))
  }

  /** `provider === 'ollama' ? analyzeWithOllama : analyzeWithGemini` */
  function BackendFor(provider: string): Backend
  {
    if provider == "ollama" then Ollama else Gemini
  }

  /** `chooseModel(provider, override)` */
  function ChooseModel(provider: string, override: string, env: Env): string
  {
    if Lower(provider) == "ollama" then Or(Or(override, env.ollamaModel), DefaultOllamaModel)
    else Or(Or(override, env.geminiModel), DefaultGeminiModel)
  }

  /** Lower-casing twice is lower-casing once. */
  lemma LowerIdempotent(s: string)
    ensures Lower(Lower(s)) == Lower(s)
  {
    assert forall c :: LowerAscii(LowerAscii(c)) == LowerAscii(c);
  }

  /** A requested model is used as it is, whatever the provider; without one the
      provider's own variable, then its default, is used; the name is never empty. */
  lemma ChooseModelSpec(provider: string, override: string, env: Env)
    ensures override != "" ==> ChooseModel(provider, override, env) == override
    ensures override == "" && Lower(provider) == "ollama" ==>
      ChooseModel(provider, override, env) == (if env.ollamaModel != "" then env.ollamaModel else "llama3")
    ensures override == "" && Lower(provider) != "ollama" ==>
      ChooseModel(provider, override, env) == (if env.geminiModel != "" then env.geminiModel else "gemini-1.5-pro")
    ensures ChooseModel(provider, override, env) != ""
  {
  }

  /** The provider a run resolves to: the requested one, else `LLM_PROVIDER`, else
      Gemini, in any letter case. */
  lemma ResolveProviderSpec(requested: string, env: Env)
    ensures requested != "" ==> ResolveProvider(requested, env) == Lower(requested)
    ensures requested == "" && env.llmProvider != "" ==> ResolveProvider(requested, env) == Lower(env.llmProvider)
    ensures requested == "" && env.llmProvider == "" ==> BackendFor(ResolveProvider(requested, env)) == Gemini
    ensures BackendFor(ResolveProvider("OLLAMA", env)) == Ollama
  {
    assert Lower(DefaultProvider) == DefaultProvider;
    assert Lower("OLLAMA") == "ollama";
  }

  /** The client called and the default model agree: when no model is requested, the
      Ollama client gets an Ollama model name and the Gemini client a Gemini one. */
  lemma BackendAndModelAgree(requested: string, override: string, env: Env)
    requires override == ""
    ensures var p := ResolveProvider(requested, env);
      && (BackendFor(p) == Ollama ==> ChooseModel(p, override, env) == Or(env.ollamaModel, DefaultOllamaModel))
      && (BackendFor(p) == Gemini ==> ChooseModel(p, override, env) == Or(env.geminiModel, DefaultGeminiModel))
  {
    LowerIdempotent(Or(Or(requested, env.llmProvider), DefaultProvider));
  }
}
