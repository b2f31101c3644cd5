/** The verdict on one concrete call: arguments, lifecycle state, guards, then safety. */
module Gates {
  import opened Wrappers
  import opened ToolSchema

  datatype Safety = Read | Write | Destructive

  datatype Tool = Tool(name: string, description: string, params: Params, safety: Safety)

  datatype Mode = ReadMode | WriteMode | DestructiveMode | BlockedMode

  datatype Override = Override(mode: Option<Mode>, requireConfirmation: Option<bool>, blocked: bool)

  datatype SafetyConfig = SafetyConfig(readOnly: bool, requireConfirmationFor: seq<Safety>, overrides: map<string, Override>)

  datatype StateDefinition = StateDefinition(
    id: string, allowedTools: Option<seq<string>>, blockedTools: seq<string>, requiresFields: seq<string>)

  datatype GateContext = GateContext(safety: SafetyConfig, state: Option<StateDefinition>, presentFields: set<string>)

  datatype Reason = NotInStage(tool: string, stage: string) | NotViaChat | NeedsConfiguration

  datatype Verdict = Allow | DenyFatal(reason: Reason) | NeedsApproval | NeedsInfo(missing: seq<string>)

  // ---- safety ----

  datatype SafetyDecision = Allowed(requiresConfirmation: bool) | Refused(reason: Reason)

  function EffectiveSafety(tool: Tool, config: SafetyConfig): Safety {
    if tool.name !in config.overrides then tool.safety
    else
      var o := config.overrides[tool.name];
      if o.blocked || o.mode == Some(BlockedMode) then Destructive
      else
        match o.mode
        case None => tool.safety
        case Some(ReadMode) => Read
        case Some(WriteMode) => Write
        case Some(_) => Destructive
  }

  function EvaluateSafety(tool: Tool, config: SafetyConfig): SafetyDecision {
    var o := if tool.name in config.overrides then Some(config.overrides[tool.name]) else None;
    match EffectiveSafety(tool, config)
    case Destructive => Refused(NotViaChat)
    case Write =>
      if config.readOnly && (o.None? || o.value.mode != Some(WriteMode)) then Refused(NeedsConfiguration)
      else if o.Some? && o.value.requireConfirmation.Some? then Allowed(o.value.requireConfirmation.value)
      else Allowed(Write in config.requireConfirmationFor)
    case Read => Allowed(false)
  }

  // ---- the gate ----

  predicate InStage(tool: Tool, state: StateDefinition) {
    tool.name !in state.blockedTools && (state.allowedTools.Some? ==> tool.name in state.allowedTools.value)
  }

  function Unmet(fields: seq<string>, present: set<string>): (unmet: seq<string>)
    ensures forall f :: f in unmet <==> f in fields && f !in present
  {
    if fields == [] then []
    else
      var rest, f := Unmet(fields[..|fields| - 1], present), fields[|fields| - 1];
      if f in present then rest else rest + [f]
  }

  function EvaluateGate(tool: Tool, args: Args, ctx: GateContext): Verdict {
    var missing := FindMissingRequiredArgs(tool.params, args);
    if missing != [] then NeedsInfo(missing)
    else if ctx.state.Some? && !InStage(tool, ctx.state.value) then DenyFatal(NotInStage(tool.name, ctx.state.value.id))
    else if ctx.state.Some? && Unmet(ctx.state.value.requiresFields, ctx.presentFields) != [] then
      NeedsInfo(Unmet(ctx.state.value.requiresFields, ctx.presentFields))
    else
      match EvaluateSafety(tool, ctx.safety)
      case Refused(reason) => DenyFatal(reason)
      case Allowed(confirm) => if confirm then NeedsApproval else Allow
  }

  /** Every required argument has a value. */
  predicate Supplied(tool: Tool, args: Args) {
    forall name <- RequiredParamNames(tool.params) :: !Absent(Property(args, name))
  }

  /** The stage, if there is one, admits the tool and its guards are met. */
  predicate StageReady(tool: Tool, ctx: GateContext) {
    ctx.state.Some? ==>
      && InStage(tool, ctx.state.value)
      && forall f <- ctx.state.value.requiresFields :: f in ctx.presentFields
  }

  /** A call can go ahead, at once or after approval, exactly when nothing is missing, the stage is ready and safety does not refuse. */
  lemma GatePasses(tool: Tool, args: Args, ctx: GateContext)
    ensures var v := EvaluateGate(tool, args, ctx);
            && (v.Allow? || v.NeedsApproval? <==>
                  Supplied(tool, args) && StageReady(tool, ctx) && EvaluateSafety(tool, ctx.safety).Allowed?)
            && (v.NeedsApproval? ==> EffectiveSafety(tool, ctx.safety) == Write)
            && (v.Allow? ==> EvaluateSafety(tool, ctx.safety) == Allowed(false))
  {
    var missing := FindMissingRequiredArgs(tool.params, args);
    if missing != [] {
      assert missing[0] in missing;
    }
    if ctx.state.Some? {
      var unmet := Unmet(ctx.state.value.requiresFields, ctx.presentFields);
      if unmet != [] {
        assert unmet[0] in unmet;
      }
    }
  }

  /** All stage fields that are not at hand. */
  predicate Lacks(f: string, ctx: GateContext) {
    ctx.state.Some? && f in ctx.state.value.requiresFields && f !in ctx.presentFields
  }

  /**
   Missing arguments come first, and are named all; then a stage that does not admit the tool is a refusal; then the
   stage's fields that are not at hand are named, all of them; what is left is safety's to refuse.
   */
  lemma GateAsks(tool: Tool, args: Args, ctx: GateContext)
    ensures var v := EvaluateGate(tool, args, ctx);
            if !Supplied(tool, args) then
              v.NeedsInfo? && v.missing != []
              && forall f :: f in v.missing <==> f in RequiredParamNames(tool.params) && Absent(Property(args, f))
            else if ctx.state.Some? && !InStage(tool, ctx.state.value) then
              v == DenyFatal(NotInStage(tool.name, ctx.state.value.id))
            else if !StageReady(tool, ctx) then
              v.NeedsInfo? && v.missing != [] && forall f :: f in v.missing <==> Lacks(f, ctx)
            else
              match EvaluateSafety(tool, ctx.safety)
              case Refused(reason) => v == DenyFatal(reason)
              case Allowed(confirm) => v == if confirm then NeedsApproval else Allow
  {
    hide RequiredParamNames, EvaluateSafety;
    var missing := FindMissingRequiredArgs(tool.params, args);
    if missing != [] {
      assert missing[0] in missing;
    } else if ctx.state.Some? && InStage(tool, ctx.state.value) {
      StageAsks(ctx);
    }
  }

  lemma StageAsks(ctx: GateContext)
    requires ctx.state.Some?
    ensures Unmet(ctx.state.value.requiresFields, ctx.presentFields) == [] <==> forall f <- ctx.state.value.requiresFields :: f in ctx.presentFields
  {
    var unmet := Unmet(ctx.state.value.requiresFields, ctx.presentFields);
    if unmet != [] {
      assert unmet[0] in unmet;
    }
  }

  /** The override of a tool, if it has one. */
  function OverrideOf(tool: Tool, config: SafetyConfig): Override {
    if tool.name in config.overrides then config.overrides[tool.name] else Override(None, None, false)
  }

  predicate RefusedForChat(tool: Tool, o: Override) {
    o.blocked || o.mode == Some(BlockedMode) || o.mode == Some(DestructiveMode) || (o.mode.None? && tool.safety == Destructive)
  }

  /** The call counts as a write. */
  predicate Writing(tool: Tool, o: Override) {
    !o.blocked && (o.mode == Some(WriteMode) || (o.mode.None? && tool.safety == Write))
  }

  /**
   Safety refuses what is blocked or destructive, and in read-only mode a write not overridden to be one; it asks
   for writes, by the override's own setting if it has one; everything else is allowed at once.
   */
  lemma OverridesDecide(tool: Tool, config: SafetyConfig)
    ensures var o, d := OverrideOf(tool, config), EvaluateSafety(tool, config);
            && (d == Refused(NotViaChat) <==> RefusedForChat(tool, o))
            && (d == Refused(NeedsConfiguration) <==> Writing(tool, o) && config.readOnly && o.mode.None?)
            && (d == Allowed(true) <==>
                  Writing(tool, o) && (config.readOnly ==> o.mode.Some?) && o.requireConfirmation.GetOr(Write in config.requireConfirmationFor))
  {
  }

  /** Field by field, `a` restricts at least what `b` does. */
  predicate Stricter(a: GateContext, b: GateContext) {
    && a.safety.overrides == b.safety.overrides
    && (b.safety.readOnly ==> a.safety.readOnly)
    && (forall x <- b.safety.requireConfirmationFor :: x in a.safety.requireConfirmationFor)
    && a.presentFields <= b.presentFields
    && (b.state.Some? ==> a.state.Some? && StricterStage(a.state.value, b.state.value))
  }

  predicate StricterStage(a: StateDefinition, b: StateDefinition) {
    && (forall t <- b.blockedTools :: t in a.blockedTools)
    && (b.allowedTools.Some? ==> a.allowedTools.Some? && forall t <- a.allowedTools.value :: t in b.allowedTools.value)
    && (forall f <- b.requiresFields :: f in a.requiresFields)
  }

  /** Restricting the stage, the fields at hand or the safety settings never lets a call through, or spares it the question, that was held before. */
  lemma StricterHolds(tool: Tool, args: Args, a: GateContext, b: GateContext)
    requires Stricter(a, b)
    ensures var v, w := EvaluateGate(tool, args, a), EvaluateGate(tool, args, b);
            && (v.Allow? || v.NeedsApproval? ==> w.Allow? || w.NeedsApproval?)
            && (v.Allow? ==> w.Allow?)
  {
    hide FindMissingRequiredArgs, RequiredParamNames;
    GatePasses(tool, args, a);
    GatePasses(tool, args, b);
  }
}
