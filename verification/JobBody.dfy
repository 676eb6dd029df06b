/** Sanitising the request body of a job before it reaches the local model
    (src/limits.rs). */
module JobBody {
  import opened Text
  import opened Json

  const MAX_OUTPUT_TOKENS: u64 := 8192

  /** The keys that the gateway may set; `model` and `stream` are the client's own. */
  predicate IsAllowed(key: string) {
    key == "messages" || key == "max_tokens" || key == "temperature" || key == "top_p" || key == "top_k"
    || key == "stop" || key == "presence_penalty" || key == "frequency_penalty" || key == "seed"
    || key == "response_format" || key == "tools" || key == "tool_choice"
  }

  function Clamp(requested: Option<Value>): u64 {
    match requested
    case Some(v) =>
      (match v.AsU64()
       case Some(n) => if n < MAX_OUTPUT_TOKENS then n else MAX_OUTPUT_TOKENS
       case None => MAX_OUTPUT_TOKENS)
    case None => MAX_OUTPUT_TOKENS
  }

  /** The fields of a body that the gateway is allowed to set. */
  function Allowed(raw: Value): map<string, Value> {
    if raw.Obj? then map k | k in raw.fields && IsAllowed(k) :: raw.fields[k] else map[]
  }

  function Sanitized(raw: Value, model: string): Value {
    var kept := Allowed(raw);
    Obj(kept["max_tokens" := Int(Clamp(Obj(kept).Get("max_tokens")))]["model" := Str(model)]["stream" := Bool(true)])
  }

  method SanitizeJobBody(raw: Value, model: string) returns (body: Value)
    ensures body == Sanitized(raw, model)
  {
    var out: map<string, Value> := map[];
    if raw.Obj? {
      var rest := raw.fields.Keys;
      while rest != {}
        invariant rest <= raw.fields.Keys
        invariant out == map k | k in raw.fields && k !in rest && IsAllowed(k) :: raw.fields[k]
        decreases |rest|
      {
        var k :| k in rest;
        rest := rest - {k};
        if IsAllowed(k) {
          out := out[k := raw.fields[k]];
        }
      }
    }
    assert out == Allowed(raw);
    var clamped := Clamp(Obj(out).Get("max_tokens"));
    out := out["max_tokens" := Int(clamped)];
    out := out["model" := Str(model)];
    out := out["stream" := Bool(true)];
    body := Obj(out);
  }

  /** What the local model is shown, key by key. */
  lemma SanitizedFields(raw: Value, model: string, key: string)
    ensures var field := Sanitized(raw, model).Get(key);
            var passed := {"messages", "temperature", "top_p", "top_k", "stop", "presence_penalty", "frequency_penalty",
                           "seed", "response_format", "tools", "tool_choice"};
            if key == "model" then field == Some(Str(model))
            else if key == "stream" then field == Some(Bool(true))
            else if key == "max_tokens" then
              && field.Some? && field.value.Int? && 0 <= field.value.n <= 8192
              && (forall n :: raw.Get(key) == Some(Int(n)) && 0 <= n <= 8192 ==> field.value.n == n)
              && (forall n :: raw.Get(key) == Some(Int(n)) && 8192 < n < U64_LIMIT ==> field.value.n == 8192)
              && ((!exists n :: raw.Get(key) == Some(Int(n)) && 0 <= n < U64_LIMIT) ==> field.value.n == 8192)
            else if key in passed then field == raw.Get(key)
            else field == None
  {
  }

  /** Only the allowed keys matter. */
  lemma OnlyAllowedMatter(a: Value, b: Value, model: string)
    requires forall key :: IsAllowed(key) ==> a.Get(key) == b.Get(key)
    ensures Sanitized(a, model) == Sanitized(b, model)
  {
  }

  /** Sanitising is a projection: a second pass only replaces the model. */
  lemma SanitizeTwice(raw: Value, first: string, second: string)
    ensures Sanitized(Sanitized(raw, first), second) == Sanitized(raw, second)
  {
  }
}
