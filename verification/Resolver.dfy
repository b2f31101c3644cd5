/** Plans, and the resolver that derives their dependency structure from the bound tools. */
module Plans {
  import opened Wrappers
  import opened ToolSchema
  import opened Gates

  /** Where an argument's value comes from. */
  datatype ArgSource = Literal(value: Value) | Output(instructionId: string, field: string) | Missing

  datatype Effect = Reads | Writes

  datatype Instruction = Instruction(
    id: string, capability: string, tool: Tool, argSources: map<string, ArgSource>,
    needs: seq<string>, effect: Effect, produces: seq<string>)

  datatype Plan = Plan(goal: string, nudge: Option<string>, instructions: seq<Instruction>)

  predicate DistinctIds(instructions: seq<Instruction>) {
    forall i, j :: 0 <= i < j < |instructions| ==> instructions[i].id != instructions[j].id
  }

  /** `toLowerCase` of an ASCII letter. */
  function LowerChar(c: char): char {
    if 'A' <= c <= 'Z' then c - 'A' + 'a' else c
  }

  /** cart_id ~ cartId ~ CartID */
  function NormalizeField(name: string): string {
    if name == "" then ""
    else
      var rest, c := NormalizeField(name[..|name| - 1]), LowerChar(name[|name| - 1]);
      if 'a' <= c <= 'z' || '0' <= c <= '9' then rest + [c] else rest
  }
}

/** Dependency cycles. */
module Cycles {
  import opened Wrappers

  /** What each instruction needs. */
  type Deps = map<string, seq<string>>

  predicate Edge(deps: Deps, a: string, b: string) {
    a in deps && b in deps && b in deps[a]
  }

  /** A closed walk of at least one edge. */
  predicate IsCycle(deps: Deps, c: seq<string>) {
    |c| >= 2 && c[0] == c[|c| - 1] && forall i :: 0 <= i < |c| - 1 ==> Edge(deps, c[i], c[i + 1])
  }

  /** Edges that go down in rank close no walk. */
  lemma RankedAcyclic(deps: Deps, rank: map<string, nat>, c: seq<string>)
    requires deps.Keys <= rank.Keys && forall a, b | Edge(deps, a, b) :: rank[b] < rank[a]
    ensures !IsCycle(deps, c)
  {
    if IsCycle(deps, c) {
      forall k | 0 <= k < |c|
        ensures c[k] in rank
      {
        assert Edge(deps, c[if k > 0 then k - 1 else 0], c[if k > 0 then k else 1]);
      }
      for i := 1 to |c|
        invariant forall k :: 1 <= k < i ==> rank[c[k]] < rank[c[0]]
      {
        assert Edge(deps, c[i - 1], c[i]);
      }
    }
  }

  datatype Mark = Visiting | Done

  /** What the depth-first search keeps; `order` lists the finished nodes, each after what it needs. */
  ghost predicate DfsInv(deps: Deps, state: map<string, Mark>, path: seq<string>, order: seq<string>) {
    && state.Keys <= deps.Keys
    && (forall x :: x in path <==> x in state && state[x] == Visiting)
    && (forall x :: x in order <==> x in state && state[x] == Done)
    && (forall i, j :: 0 <= i < j < |path| ==> path[i] != path[j])
    && (forall i :: 0 <= i < |path| - 1 ==> Edge(deps, path[i], path[i + 1]))
    && (forall i, j :: 0 <= i < j < |order| ==> order[i] != order[j])
    && (forall k, b :: 0 <= k < |order| && Edge(deps, order[k], b) ==> b in order[..k])
  }

  method IndexOf(path: seq<string>, id: string) returns (start: nat)
    requires id in path
    ensures start < |path| && path[start] == id
  {
    start := 0;
    while path[start] != id
      invariant start < |path| && id in path[start..]
      decreases |path| - start
    {
      start := start + 1;
    }
  }

  method Visit(deps: Deps, id: string, state0: map<string, Mark>, path: seq<string>, ghost order0: seq<string>)
    returns (found: Option<seq<string>>, state: map<string, Mark>, ghost order: seq<string>)
    requires DfsInv(deps, state0, path, order0) && id in deps
    requires path != [] ==> Edge(deps, path[|path| - 1], id)
    ensures found.Some? ==> IsCycle(deps, found.value)
    ensures found.None? ==> DfsInv(deps, state, path, order) && id in state && state[id] == Done
    ensures found.None? ==> forall x <- state0 :: x in state && state[x] == state0[x]
    decreases deps.Keys - state0.Keys
  {
    hide DfsInv, IsCycle, Edge;
    DfsKeys(deps, state0, path, order0);
    state, order := state0, order0;
    if id in state {
      if state[id] == Done {
        return None, state, order;
      }
      var start := IndexOf(path, id);
      ClosesCycle(deps, state, path, order, id, start);
      return Some(path[start..] + [id]), state, order;
    }
    state := state[id := Visiting];
    var here := path + [id];
    EntersInv(deps, state0, path, order0, id);
    var needs := deps[id];
    for i := 0 to |needs|
      invariant DfsInv(deps, state, here, order)
      invariant forall x <- state0 :: x in state && state[x] == state0[x]
      invariant id in state
      invariant forall k :: 0 <= k < i && needs[k] in deps ==> needs[k] in state && state[needs[k]] == Done
    {
      if needs[i] in deps {
        ghost var before := state;
        EdgeOf(deps, id, needs[i]);
        found, state, order := Visit(deps, needs[i], state, here, order);
        if found.Some? {
          return;
        }
        assert forall x <- before :: x in state && state[x] == before[x];
      }
    }
    forall b | Edge(deps, id, b)
      ensures b in state && state[b] == Done
    {
      EdgeEnds(deps, id, b);
    }
    LeavesInv(deps, state, path, order, id);
    state := state[id := Done];
    order := order + [id];
    found := None;
  }

  lemma DfsKeys(deps: Deps, state: map<string, Mark>, path: seq<string>, order: seq<string>)
    requires DfsInv(deps, state, path, order)
    ensures state.Keys <= deps.Keys
    ensures forall x :: x in path <==> x in state && state[x] == Visiting
  {
  }

  lemma EdgeEnds(deps: Deps, a: string, b: string)
    requires Edge(deps, a, b)
    ensures a in deps && b in deps && b in deps[a]
  {
  }

  lemma EdgeOf(deps: Deps, a: string, b: string)
    requires a in deps && b in deps && b in deps[a]
    ensures Edge(deps, a, b)
  {
  }

  lemma ClosesCycle(deps: Deps, state: map<string, Mark>, path: seq<string>, order: seq<string>, id: string, start: nat)
    requires DfsInv(deps, state, path, order) && start < |path| && path[start] == id && Edge(deps, path[|path| - 1], id)
    ensures IsCycle(deps, path[start..] + [id])
  {
    var c := path[start..] + [id];
    forall i | 0 <= i < |c| - 1
      ensures Edge(deps, c[i], c[i + 1])
    {
      if i < |c| - 2 {
        assert c[i] == path[start + i] && c[i + 1] == path[start + i + 1];
      }
    }
  }

  lemma EntersInv(deps: Deps, state: map<string, Mark>, path: seq<string>, order: seq<string>, id: string)
    requires DfsInv(deps, state, path, order) && id in deps && id !in state
    requires path != [] ==> Edge(deps, path[|path| - 1], id)
    ensures DfsInv(deps, state[id := Visiting], path + [id], order)
  {
  }

  lemma LeavesInv(deps: Deps, state: map<string, Mark>, path: seq<string>, order: seq<string>, id: string)
    requires DfsInv(deps, state, path + [id], order)
    requires forall b | Edge(deps, id, b) :: b in state && state[b] == Done
    ensures DfsInv(deps, state[id := Done], path, order + [id])
  {
    var here, after := path + [id], order + [id];
    assert here[|path|] == id && id in here && id !in order;
    forall i, j | 0 <= i < j < |after|
      ensures after[i] != after[j]
    {
      assert order[i] in order;
    }
    forall x
      ensures x in after <==> x in order || x == id
    {
    }
    forall x
      ensures x in path <==> x in here && x != id
    {
      if x in path {
        var i :| 0 <= i < |path| && path[i] == x;
        assert here[i] == x && here[i] != here[|path|];
      }
    }
    forall i | 0 <= i < |path| - 1
      ensures Edge(deps, path[i], path[i + 1])
    {
      assert here[i] == path[i] && here[i + 1] == path[i + 1];
    }
    forall i, j | 0 <= i < j < |path|
      ensures path[i] != path[j]
    {
      assert here[i] == path[i] && here[j] == path[j];
    }
    forall k, b | 0 <= k < |after| && Edge(deps, after[k], b)
      ensures b in after[..k]
    {
      assert after[..k] == order[..k];
      if k == |order| {
        assert order[..k] == order;
      }
    }
  }

  /** `detectCycle`: a cycle is reported exactly when there is one. */
  method DetectCycle(ids: seq<string>, deps: Deps) returns (cycle: Option<seq<string>>)
    requires forall x :: x in ids <==> x in deps
    ensures cycle.Some? ==> IsCycle(deps, cycle.value)
    ensures cycle.None? ==> forall c :: !IsCycle(deps, c)
  {
    var state: map<string, Mark> := map[];
    ghost var order: seq<string> := [];
    for i := 0 to |ids|
      invariant DfsInv(deps, state, [], order)
      invariant forall k :: 0 <= k < i ==> ids[k] in state && state[ids[k]] == Done
    {
      ghost var before := state;
      assert ids[i] in ids;
      cycle, state, order := Visit(deps, ids[i], state, [], order);
      if cycle.Some? {
        return;
      }
      assert forall x <- before :: x in state && state[x] == before[x];
    }
    cycle := None;
    forall c
      ensures !IsCycle(deps, c)
    {
      FinishedAcyclic(deps, state, order, c);
    }
  }

  lemma FinishedAcyclic(deps: Deps, state: map<string, Mark>, order: seq<string>, c: seq<string>)
    requires DfsInv(deps, state, [], order) && deps.Keys <= state.Keys
    ensures !IsCycle(deps, c)
  {
    forall x | x in deps
      ensures x in order
    {
      assert state[x] == Done;
    }
    var rank := map x | x in deps :: Position(order, x);
    forall a, b | Edge(deps, a, b)
      ensures rank[b] < rank[a]
    {
      var k := Position(order, a);
      assert b in order[..k];
      var j :| 0 <= j < k && order[..k][j] == b;
      assert order[j] == b;
    }
    RankedAcyclic(deps, rank, c);
  }

  ghost function Position(order: seq<string>, x: string): (k: nat)
    ensures x in order ==> k < |order| && order[k] == x
  {
    if x in order then var k :| 0 <= k < |order| && order[k] == x; k else 0
  }
}

/** `resolvePlan`: every required parameter is wired to a hint, an earlier producer, or nothing. */
module Resolver {
  import opened Wrappers
  import opened ToolSchema
  import opened Gates
  import opened Plans
  import opened Cycles

  datatype PlanStep = PlanStep(id: string, capability: string, argsHint: Args, produces: seq<string>)

  /** A planned step and the tool it is bound to. */
  datatype Bound = Bound(step: PlanStep, tool: Tool)

  datatype ResolveError = DuplicateIds | CyclicPlan(cycle: seq<string>)

  predicate DistinctSteps(bound: seq<Bound>) {
    forall i, j :: 0 <= i < j < |bound| ==> bound[i].step.id != bound[j].step.id
  }

  /** Some field of the list has the normalized name `key`. */
  predicate Produces(fields: seq<string>, key: string) {
    exists i :: 0 <= i < |fields| && NormalizeField(fields[i]) == key
  }

  /** The earliest of the first `k` steps to produce `key`. */
  function Earliest(bound: seq<Bound>, key: string, k: nat): (first: Option<nat>)
    requires k <= |bound|
    ensures first.None? <==> forall j :: 0 <= j < k ==> !Produces(bound[j].step.produces, key)
    ensures first.Some? ==> first.value < k && Produces(bound[first.value].step.produces, key)
                            && forall j :: 0 <= j < first.value ==> !Produces(bound[j].step.produces, key)
  {
    if k == 0 then None
    else
      var before := Earliest(bound, key, k - 1);
      if before.Some? then before
      else if Produces(bound[k - 1].step.produces, key) then Some(k - 1)
      else None
  }

  /** The source of required parameter `param` of step `i`. */
  function Wire(bound: seq<Bound>, i: nat, param: string): ArgSource
    requires i < |bound|
  {
    var hint := Property(bound[i].step.argsHint, param);
    if !Absent(hint) then Literal(hint)
    else
      var p := Earliest(bound, NormalizeField(param), |bound|);
      if p.Some? && bound[p.value].step.id != "" && p.value < i then Output(bound[p.value].step.id, param)
      else Missing
  }

  function Required(b: Bound): seq<string> {
    RequiredParamNames(b.tool.params)
  }

  /** Hints for optional parameters ride along as literals. */
  function OptionalHints(b: Bound): map<string, ArgSource> {
    map name | name in b.step.argsHint && name !in Required(b) :: Literal(b.step.argsHint[name])
  }

  function Sources(bound: seq<Bound>, i: nat): map<string, ArgSource>
    requires i < |bound|
  {
    map name | name in bound[i].step.argsHint.Keys + (set n <- Required(bound[i])) ::
      if name in Required(bound[i]) then Wire(bound, i, name) else Literal(bound[i].step.argsHint[name])
  }

  /** The producers of the first `k` required parameters, in order of first use. */
  function Producers(bound: seq<Bound>, i: nat, k: nat): (needs: seq<string>)
    requires i < |bound| && k <= |Required(bound[i])|
    ensures forall n :: n in needs <==> exists q :: 0 <= q < k && FromOutput(Wire(bound, i, Required(bound[i])[q]), n)
  {
    if k == 0 then []
    else
      var before, w := Producers(bound, i, k - 1), Wire(bound, i, Required(bound[i])[k - 1]);
      if w.Output? && w.instructionId !in before then before + [w.instructionId] else before
  }

  predicate FromOutput(s: ArgSource, id: string) {
    s.Output? && s.instructionId == id
  }

  function Resolved(bound: seq<Bound>, i: nat): Instruction
    requires i < |bound|
  {
    var b := bound[i];
    Instruction(b.step.id, b.step.capability, b.tool, Sources(bound, i), Producers(bound, i, |Required(b)|),
                if b.tool.safety == Read then Reads else Writes, b.step.produces)
  }

  function ResolvedAll(bound: seq<Bound>): (s: seq<Instruction>)
    ensures |s| == |bound|
  {
    seq(|bound|, i requires 0 <= i < |bound| => Resolved(bound, i))
  }

  /** The first loop: each normalized field to its earliest producer. */
  method MapProducers(bound: seq<Bound>) returns (producerOf: map<string, nat>)
    ensures forall key :: key in producerOf <==> Earliest(bound, key, |bound|).Some?
    ensures forall key <- producerOf :: Some(producerOf[key]) == Earliest(bound, key, |bound|)
  {
    hide Produces, NormalizeField;
    producerOf := map[];
    for i := 0 to |bound|
      invariant forall key :: key in producerOf <==> Earliest(bound, key, i).Some?
      invariant forall key <- producerOf :: Some(producerOf[key]) == Earliest(bound, key, i)
    {
      producerOf := MapFields(producerOf, bound[i].step.produces, i);
    }
  }

  method MapFields(before: map<string, nat>, fields: seq<string>, i: nat) returns (producerOf: map<string, nat>)
    ensures forall key :: key in producerOf <==> key in before || Produces(fields, key)
    ensures forall key <- producerOf :: producerOf[key] == if key in before then before[key] else i
  {
    hide Produces, NormalizeField;
    producerOf := before;
    ProducesNothing();
    for j := 0 to |fields|
      invariant forall key :: key in producerOf <==> key in before || Produces(fields[..j], key)
      invariant forall key <- producerOf :: producerOf[key] == if key in before then before[key] else i
    {
      var key := NormalizeField(fields[j]);
      ProducesMore(fields, j);
      if key !in producerOf {
        producerOf := producerOf[key := i];
      }
    }
    assert fields[..|fields|] == fields;
  }

  lemma ProducesNothing()
    ensures forall fields: seq<string>, key :: !Produces(fields[..0], key)
  {
  }

  lemma ProducesMore(fields: seq<string>, j: nat)
    requires j < |fields|
    ensures forall key :: Produces(fields[..j + 1], key) <==> Produces(fields[..j], key) || key == NormalizeField(fields[j])
  {
    forall key
      ensures Produces(fields[..j + 1], key) <==> Produces(fields[..j], key) || key == NormalizeField(fields[j])
    {
      assert fields[..j + 1] == fields[..j] + [fields[j]];
      if Produces(fields[..j], key) {
        var i :| 0 <= i < j && NormalizeField(fields[..j][i]) == key;
        assert fields[..j + 1][i] == fields[..j][i];
      }
      assert fields[..j + 1][j] == fields[j];
    }
  }

  /** Where one required parameter comes from. */
  method WireParam(bound: seq<Bound>, producerOf: map<string, nat>, i: nat, param: string) returns (source: ArgSource)
    requires i < |bound|
    requires forall key :: key in producerOf <==> Earliest(bound, key, |bound|).Some?
    requires forall key <- producerOf :: Some(producerOf[key]) == Earliest(bound, key, |bound|)
    ensures source == Wire(bound, i, param)
  {
    hide Produces, NormalizeField;
    var hints := bound[i].step.argsHint;
    if param in hints && !Absent(hints[param]) {
      return Literal(hints[param]);
    }
    if NormalizeField(param) in producerOf {
      var p := producerOf[NormalizeField(param)];
      if bound[p].step.id != "" && p < i {
        return Output(bound[p].step.id, param);
      }
    }
    source := Missing;
  }

  /** The loop over one step's required parameters. */
  method ResolveStep(bound: seq<Bound>, producerOf: map<string, nat>, i: nat) returns (r: Instruction)
    requires i < |bound|
    requires forall key :: key in producerOf <==> Earliest(bound, key, |bound|).Some?
    requires forall key <- producerOf :: Some(producerOf[key]) == Earliest(bound, key, |bound|)
    ensures r == Resolved(bound, i)
  {
    hide Wire, Earliest, NormalizeField, RequiredParamNames, Sources, OptionalHints;
    var b := bound[i];
    var required := Required(b);
    var argSources, needs: seq<string> := OptionalHints(b), [];
    for k := 0 to |required|
      invariant argSources == SourcesBy(bound, i, k)
      invariant needs == Producers(bound, i, k)
    {
      var source := WireParam(bound, producerOf, i, required[k]);
      argSources := argSources[required[k] := source];
      if source.Output? && source.instructionId !in needs {
        needs := needs + [source.instructionId];
      }
    }
    AllSources(bound, i);
    r := Instruction(b.step.id, b.step.capability, b.tool, argSources, needs,
                     if b.tool.safety == Read then Reads else Writes, b.step.produces);
  }

  /** The sources once the first `k` required parameters are wired. */
  function SourcesBy(bound: seq<Bound>, i: nat, k: nat): map<string, ArgSource>
    requires i < |bound| && k <= |Required(bound[i])|
  {
    if k == 0 then OptionalHints(bound[i])
    else var param := Required(bound[i])[k - 1]; SourcesBy(bound, i, k - 1)[param := Wire(bound, i, param)]
  }

  lemma {:induction false} SourcesAre(bound: seq<Bound>, i: nat, k: nat)
    requires i < |bound| && k <= |Required(bound[i])|
    ensures var now, required := SourcesBy(bound, i, k), Required(bound[i]);
            forall name :: (name in now <==> name in OptionalHints(bound[i]) || name in required[..k])
                           && (name in required[..k] ==> now[name] == Wire(bound, i, name))
                           && (name in OptionalHints(bound[i]) ==> name in now && now[name] == OptionalHints(bound[i])[name])
  {
    hide Wire;
    var required := Required(bound[i]);
    if k > 0 {
      SourcesAre(bound, i, k - 1);
      assert required[..k] == required[..k - 1] + [required[k - 1]];
      assert required[k - 1] in required;
    }
  }

  lemma AllSources(bound: seq<Bound>, i: nat)
    requires i < |bound|
    ensures SourcesBy(bound, i, |Required(bound[i])|) == Sources(bound, i)
  {
    hide Wire, SourcesBy, RequiredParamNames;
    var required := Required(bound[i]);
    SourcesAre(bound, i, |required|);
    assert required[..|required|] == required;
    assert SourcesBy(bound, i, |required|) == Sources(bound, i);
  }

  function DepsOf(s: seq<Instruction>): Deps {
    if s == [] then map[] else DepsOf(s[..|s| - 1])[s[|s| - 1].id := s[|s| - 1].needs]
  }

  lemma {:induction false} DepsAre(s: seq<Instruction>)
    requires DistinctIds(s)
    ensures forall id :: id in DepsOf(s) <==> exists i :: 0 <= i < |s| && s[i].id == id
    ensures forall i :: 0 <= i < |s| ==> s[i].id in DepsOf(s) && DepsOf(s)[s[i].id] == s[i].needs
  {
    if s != [] {
      var init, last := s[..|s| - 1], s[|s| - 1];
      DepsAre(init);
      forall i | 0 <= i < |s|
        ensures s[i].id in DepsOf(s) && DepsOf(s)[s[i].id] == s[i].needs
      {
        if i < |init| {
          assert init[i] == s[i];
        }
      }
      forall id | id in DepsOf(s)
        ensures exists i :: 0 <= i < |s| && s[i].id == id
      {
        if id != last.id {
          assert id in DepsOf(init);
          var i :| 0 <= i < |init| && init[i].id == id;
          assert s[i].id == id;
        }
      }
    }
  }

  /** Every need is the id of an earlier instruction. */
  predicate Ordered(s: seq<Instruction>) {
    forall i, n :: 0 <= i < |s| && n in s[i].needs ==> exists j :: 0 <= j < i && s[j].id == n
  }

  /** Every output an argument is taken from is needed. */
  predicate SourcesNeeded(s: seq<Instruction>) {
    forall i, param :: 0 <= i < |s| && param in s[i].argSources && s[i].argSources[param].Output? ==>
      s[i].argSources[param].instructionId in s[i].needs
  }

  /** What every resolved plan satisfies. */
  predicate WellWired(s: seq<Instruction>) {
    DistinctIds(s) && Ordered(s) && SourcesNeeded(s)
  }

  /** A step needs exactly the producers it takes arguments from, and they come before it. */
  lemma NeedsAre(bound: seq<Bound>, i: nat, n: string)
    requires i < |bound|
    ensures n in Resolved(bound, i).needs <==>
              exists param <- Resolved(bound, i).argSources :: FromOutput(Resolved(bound, i).argSources[param], n)
    ensures n in Resolved(bound, i).needs ==> exists j :: 0 <= j < i && bound[j].step.id == n
  {
    hide RequiredParamNames, Produces, NormalizeField;
    var r, required := Resolved(bound, i), Required(bound[i]);
    if n in r.needs {
      var q :| 0 <= q < |required| && FromOutput(Wire(bound, i, required[q]), n);
      assert required[q] in required && FromOutput(r.argSources[required[q]], n);
      var p := Earliest(bound, NormalizeField(required[q]), |bound|).value;
      assert bound[p].step.id == n;
    }
    if param :| param in r.argSources && FromOutput(r.argSources[param], n) {
      var q :| 0 <= q < |required| && required[q] == param;
      assert FromOutput(Wire(bound, i, required[q]), n);
    }
  }

  /** Resolution wires each step to earlier steps only. */
  lemma ResolvedWellWired(bound: seq<Bound>)
    requires DistinctSteps(bound)
    ensures WellWired(ResolvedAll(bound))
  {
    hide Sources, Producers, RequiredParamNames;
    var s := ResolvedAll(bound);
    forall i, n | 0 <= i < |bound| && n in s[i].needs
      ensures exists j :: 0 <= j < i && s[j].id == n
    {
      NeedsAre(bound, i, n);
      var j :| 0 <= j < i && bound[j].step.id == n;
      assert s[j].id == n;
    }
    forall i, param | 0 <= i < |s| && param in s[i].argSources && s[i].argSources[param].Output?
      ensures s[i].argSources[param].instructionId in s[i].needs
    {
      NeedsAre(bound, i, s[i].argSources[param].instructionId);
      assert FromOutput(s[i].argSources[param], s[i].argSources[param].instructionId);
    }
  }

  /** A required parameter without a hint is wired to the earliest step that produces it when that step comes before, and to nothing otherwise. */
  lemma WiredToEarliest(bound: seq<Bound>, i: nat, param: string, p: nat)
    requires i < |bound| && p < |bound| && param in Required(bound[i])
    requires Absent(Property(bound[i].step.argsHint, param))
    requires Produces(bound[p].step.produces, NormalizeField(param))
    requires forall j :: 0 <= j < p ==> !Produces(bound[j].step.produces, NormalizeField(param))
    requires bound[p].step.id != ""
    ensures Resolved(bound, i).argSources[param] == if p < i then Output(bound[p].step.id, param) else Missing
  {
    hide Produces, NormalizeField, RequiredParamNames;
  }

  /** A hint wins; a parameter nobody produces is missing; an optional hint is passed on as it is. */
  lemma WiredOtherwise(bound: seq<Bound>, i: nat, param: string)
    requires i < |bound|
    ensures var b, sources := bound[i], Resolved(bound, i).argSources;
            && (param in sources <==> param in b.step.argsHint || param in Required(b))
            && (param in Required(b) && !Absent(Property(b.step.argsHint, param)) ==> sources[param] == Literal(b.step.argsHint[param]))
            && (param !in Required(b) && param in b.step.argsHint ==> sources[param] == Literal(b.step.argsHint[param]))
            && (param in Required(b) && Absent(Property(b.step.argsHint, param))
                && (forall j :: 0 <= j < |bound| ==> !Produces(bound[j].step.produces, NormalizeField(param)))
                ==> sources[param] == Missing)
  {
  }

  lemma OrderedAcyclic(s: seq<Instruction>, c: seq<string>)
    requires DistinctIds(s) && Ordered(s)
    ensures !IsCycle(DepsOf(s), c)
  {
    DepsAre(s);
    var deps := DepsOf(s);
    var rank := map id | id in deps :: Place(s, id);
    forall a, b | Edge(deps, a, b)
      ensures rank[b] < rank[a]
    {
      var i := Place(s, a);
      assert b in s[i].needs;
      var j :| 0 <= j < i && s[j].id == b;
    }
    RankedAcyclic(deps, rank, c);
  }

  ghost function Place(s: seq<Instruction>, id: string): (i: nat)
    requires exists i :: 0 <= i < |s| && s[i].id == id
    ensures i < |s| && s[i].id == id
  {
    var i :| 0 <= i < |s| && s[i].id == id;
    i
  }

  lemma IdsMatch(s: seq<Instruction>, ids: seq<string>)
    requires DistinctIds(s) && |ids| == |s| && forall i :: 0 <= i < |s| ==> ids[i] == s[i].id
    ensures forall x :: x in ids <==> x in DepsOf(s)
  {
    DepsAre(s);
    forall x
      ensures x in ids <==> x in DepsOf(s)
    {
      if x in DepsOf(s) {
        var i :| 0 <= i < |s| && s[i].id == x;
        assert ids[i] == x;
      }
    }
  }

  /** Bound steps with distinct ids always resolve: the cycle check never fires. */
  method ResolvePlan(goal: string, nudge: Option<string>, bound: seq<Bound>) returns (r: Result<Plan, ResolveError>)
    ensures r == if DistinctSteps(bound) then Ok(Plan(goal, nudge, ResolvedAll(bound))) else Err(DuplicateIds)
  {
    hide Resolved, Ordered, SourcesNeeded, DepsOf, Earliest, IsCycle;
    if !DistinctSteps(bound) {
      return Err(DuplicateIds);
    }
    var producerOf := MapProducers(bound);
    var resolved: seq<Instruction> := [];
    for i := 0 to |bound|
      invariant |resolved| == i && forall j :: 0 <= j < i ==> resolved[j] == Resolved(bound, j)
    {
      var step := ResolveStep(bound, producerOf, i);
      resolved := resolved + [step];
    }
    assert resolved == ResolvedAll(bound);
    ResolvedWellWired(bound);
    var ids := seq(|resolved|, i requires 0 <= i < |resolved| => resolved[i].id);
    IdsMatch(resolved, ids);
    var cycle := DetectCycle(ids, DepsOf(resolved));
    if cycle.Some? {
      OrderedAcyclic(resolved, cycle.value);
      assert false;
    }
    r := Ok(Plan(goal, nudge, resolved));
  }

  /** `nextWave`: the instructions not yet completed whose needs all are. */
  function NextWave(s: seq<Instruction>, completed: set<string>): (wave: seq<Instruction>)
    ensures forall x :: x in wave <==> x in s && Ready(x, completed)
  {
    if s == [] then []
    else
      var rest, x := NextWave(s[..|s| - 1], completed), s[|s| - 1];
      if Ready(x, completed) then rest + [x] else rest
  }

  predicate Ready(x: Instruction, completed: set<string>) {
    x.id !in completed && forall n <- x.needs :: n in completed
  }

  /** A wave keeps the plan's order, so its ids stay distinct. */
  lemma {:induction false} WaveDistinct(s: seq<Instruction>, completed: set<string>)
    requires DistinctIds(s)
    ensures DistinctIds(NextWave(s, completed))
  {
    if s != [] {
      WaveDistinct(s[..|s| - 1], completed);
      var rest, x := NextWave(s[..|s| - 1], completed), s[|s| - 1];
      forall y | y in rest
        ensures y.id != x.id
      {
        assert y in s[..|s| - 1];
      }
      assert forall i :: 0 <= i < |rest| ==> rest[i] in rest;
    }
  }

  /** While an instruction of an ordered plan is left, some instruction is ready. */
  lemma WaveNotEmpty(s: seq<Instruction>, completed: set<string>, k: nat)
    requires Ordered(s) && k < |s| && s[k].id !in completed
    requires forall j :: 0 <= j < k ==> s[j].id in completed
    ensures s[k] in NextWave(s, completed)
  {
  }
}
