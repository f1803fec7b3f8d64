/**
 * The golden-template algebra of autodev/installer/openclaw_template.py: conformance of a live
 * configuration to a template, reconciliation of the one towards the other, and rendering of
 * `${VAR}` placeholders.
 */
module OpenclawTemplate {
  import opened Json
  import opened Text

  // ---------------------------------------------------------------------------------------
  // Placeholders and rendering
  // ---------------------------------------------------------------------------------------

  predicate IsUpper(c: char) {
    'A' <= c <= 'Z'
  }

  predicate IsNameChar(c: char) {
    IsUpper(c) || '0' <= c <= '9' || c == '_'
  }

  /** The length of the longest prefix of `s` made of placeholder-name characters. */
  function NameLength(s: string): (n: nat)
    ensures n <= |s|
    ensures forall i | 0 <= i < n :: IsNameChar(s[i])
    ensures n < |s| ==> !IsNameChar(s[n])
  {
    if s != "" && IsNameChar(s[0]) then 1 + NameLength(s[1..]) else 0
  }

  /** Does `${NAME}` start at the head of `s`? */
  predicate PlaceholderAtHead(s: string) {
    && |s| > 3 && s[0] == '$' && s[1] == '{' && IsUpper(s[2])
    && (var n := NameLength(s[2..]); 2 + n < |s| && s[2 + n] == '}')
  }

  function NameAtHead(s: string): string
    requires PlaceholderAtHead(s)
  {
    s[2..2 + NameLength(s[2..])]
  }

  /** What follows the placeholder at the head of `s`. */
  function AfterHead(s: string): (rest: string)
    requires PlaceholderAtHead(s)
    ensures |rest| < |s|
  {
    s[3 + NameLength(s[2..])..]
  }

  /** `TEMPLATE_PLACEHOLDER_RE.search(s)`. */
  predicate HasPlaceholder(s: string) {
    s != "" && (PlaceholderAtHead(s) || HasPlaceholder(s[1..]))
  }

  const MODEL_DEFAULTS: map<string, string> := map[
    "PLANNER_MODEL" := "openrouter/z-ai/glm-5.2",
    "EXECUTOR_MODEL" := "openrouter/moonshotai/kimi-k2.7-code",
    "REVIEWER_MODEL" := "openrouter/moonshotai/kimi-k2.7-code",
    "PRD_MODEL" := "openrouter/moonshotai/kimi-k2.7-code",
    "ROADMAP_MODEL" := "openrouter/z-ai/glm-5.2",
    "ESCALATION_MODEL" := "openrouter/qwen/qwen3.6-27b"
  ]

  /** The value of one variable: the environment's, else the audited default, else an error naming it. */
  function Resolve(name: string, env: map<string, string>): Result<string, string> {
    var value := if name in env then Strip(env[name]) else "";
    var value := if value != "" then value else if name in MODEL_DEFAULTS then MODEL_DEFAULTS[name] else "";
    if value != "" then Ok(value) else Err(name)
  }

  /** `render_template_text` on one string: every placeholder replaced, scanning left to right. */
  function RenderText(s: string, env: map<string, string>): Result<string, string>
    decreases |s|
  {
    if s == "" then Ok("")
    else if PlaceholderAtHead(s) then
      match Resolve(NameAtHead(s), env)
      case Err(name) => Err(name)
      case Ok(value) =>
        match RenderText(AfterHead(s), env)
        case Err(name) => Err(name)
        case Ok(rest) => Ok(value + rest)
    else
      match RenderText(s[1..], env)
      case Err(name) => Err(name)
      case Ok(rest) => Ok([s[0]] + rest)
  }

  /** Rendering of a whole template, leaf by leaf; `None` when some variable has no value. */
  function Render(t: J, env: map<string, string>): Option<J> {
    match t
    case Str(s) =>
      (match RenderText(s, env)
       case Ok(r) => Some(Str(r))
       case Err(_) => None)
    case Arr(ts) =>
      if forall i | 0 <= i < |ts| :: Render(ts[i], env).Some?
      then Some(Arr(seq(|ts|, i requires 0 <= i < |ts| => Render(ts[i], env).value)))
      else None
    case Obj(tf) =>
      if forall k | k in tf :: Render(tf[k], env).Some?
      then Some(Obj(map k | k in tf :: Render(tf[k], env).value))
      else None
    case _ => Some(t)
  }

  // ---------------------------------------------------------------------------------------
  // Conformance and reconciliation as functions
  // ---------------------------------------------------------------------------------------

  predicate IsPlaceholder(t: J) {
    t.Str? && HasPlaceholder(t.s)
  }

  /** An object carrying a string under "id". */
  predicate HasId(t: J) {
    t.Obj? && "id" in t.fields && t.fields["id"].Str?
  }

  function IdOf(t: J): string
    requires HasId(t)
  {
    t.fields["id"].s
  }

  predicate CarriesId(e: J, id: string) {
    HasId(e) && IdOf(e) == id
  }

  /** The index of the first entry carrying `id`, or the length of the list. */
  function FirstWithId(es: seq<J>, id: string): (i: nat)
    ensures i <= |es|
    ensures i < |es| ==> CarriesId(es[i], id)
    ensures forall k | 0 <= k < i :: !CarriesId(es[k], id)
  {
    if es == [] || CarriesId(es[0], id) then 0 else 1 + FirstWithId(es[1..], id)
  }

  /** A scalar leaf: Python equality, except that a bool never equals a number. */
  predicate LeafMatches(t: J, live: J) {
    if t.Bool? || live.Bool? then t.Bool? && live.Bool? && t.b == live.b else LooseEq(t, live)
  }

  /** The live value meets everything the template node asks for. */
  predicate Conforms(t: J, live: J)
    decreases t, 0
  {
    if IsPlaceholder(t) then live.Str? && !Blank(live.s)
    else
      match t
      case Obj(tf) =>
        live.Obj? && forall k | k in tf :: k in live.fields && Conforms(tf[k], live.fields[k])
      case Arr(ts) => live.Arr? && forall i | 0 <= i < |ts| :: Satisfied(ts[i], live.items)
      case _ => LeafMatches(t, live)
  }

  /** A live list answers one item of a template list: by id, by a conforming object, or by membership. */
  predicate Satisfied(t: J, live: seq<J>)
    decreases t, 1
  {
    if HasId(t) then
      var i := FirstWithId(live, IdOf(t));
      i < |live| && Conforms(t, live[i])
    else if t.Obj? then exists e | e in live :: e.Obj? && Conforms(t, e)
    else exists e | e in live :: LooseEq(t, e)
  }

  function Reconcile(t: J, live: J): J
    decreases t, 1
  {
    match t
    case Obj(tf) =>
      if live.Obj? then Obj(map k | k in tf.Keys + live.fields.Keys :: ReconcileKey(t, live, k)) else t
    case Arr(ts) => if live.Arr? then Arr(ReconcileItems(ts, live.items)) else t
    case _ => t
  }

  /** The value under one key of two objects: declared values are enforced, live-only ones kept. */
  function ReconcileKey(t: J, live: J, k: string): J
    requires t.Obj? && live.Obj? && (k in t.fields || k in live.fields)
    decreases t, 0
  {
    if k !in t.fields then live.fields[k]
    else if k in live.fields then Reconcile(t.fields[k], live.fields[k])
    else t.fields[k]
  }

  /** The template items are enforced one after the other on an accumulating list. */
  function ReconcileItems(ts: seq<J>, acc: seq<J>): seq<J>
    decreases ts, 0
  {
    if ts == [] then acc else ReconcileItems(ts[1..], ReconcileItem(ts[0], acc))
  }

  function ReconcileItem(t: J, acc: seq<J>): seq<J>
    decreases t, 2
  {
    if HasId(t) then
      var i := FirstWithId(acc, IdOf(t));
      if i < |acc| then acc[i := Reconcile(t, acc[i])] else acc + [t]
    else if Satisfied(t, acc) then acc
    else acc + [t]
  }
}
