/** The model gateway: which providers may be asked, in which order, and whose answer is returned. */
module Gateway {
  import opened Wrappers
  import opened Sequences

  // ---------------------------------------------------------------- routing

  datatype Target = Target(provider: string, model: string)

  /** A slot of the routing table. */
  datatype Slot = Slot(primary: Target, secondary: Option<Target>, tertiary: Option<Target>)

  datatype Budget = Low | Normal | High
  datatype Privacy = Standard | Sensitive | AirGapped

  datatype Table = Table(
    defaults: map<(string, Budget), Slot>, airGapped: map<string, Target>, denied: set<string>, escalate: bool)

  /** NoRoute is the RoutingError, NoSlot the KeyError of a table without the slot. */
  datatype Route = Routed(slot: Slot) | NoRoute | NoSlot

  datatype Tier = Primary | Secondary | Tertiary

  function IfSet(t: Option<Target>): seq<Target> {
    if t.Some? then [t.value] else []
  }

  /** The configured targets of a slot, in order. */
  function Configured(slot: Slot): seq<Target> {
    [slot.primary] + IfSet(slot.secondary) + IfSet(slot.tertiary)
  }

  function Allowed(chain: seq<Target>, denied: set<string>): seq<Target> {
    Filter(chain, (t: Target) => t.provider !in denied)
  }

  function DropDenied(slot: Slot, denied: set<string>): Route {
    var chain := Allowed(Configured(slot), denied);
    if chain == [] then NoRoute
    else Routed(Slot(chain[0],
                     if |chain| > 1 then Some(chain[1]) else None,
                     if |chain| > 2 then Some(chain[2]) else None))
  }

  function Resolve(table: Table, task: string, budget: Budget, privacy: Privacy): Route {
    if privacy.AirGapped? then
      if task in table.airGapped then Routed(Slot(table.airGapped[task], None, None)) else NoRoute
    else if (task, budget) !in table.defaults then NoSlot
    else if privacy.Sensitive? then DropDenied(table.defaults[(task, budget)], table.denied)
    else Routed(table.defaults[(task, budget)])
  }

  /** `kept` are the targets of the chain whose provider is not denied, all of them and in the chain's order. */
  ghost predicate IsWithoutDenied(chain: seq<Target>, denied: set<string>, kept: seq<Target>) {
    exists ks :: Selection(ks, chain, kept) && AreNotDenied(chain, denied, ks)
  }

  predicate AreNotDenied(chain: seq<Target>, denied: set<string>, ks: seq<nat>) {
    forall i | 0 <= i < |chain| :: i in ks <==> chain[i].provider !in denied
  }

  lemma {:induction false} AllowedSelects(chain: seq<Target>, denied: set<string>)
    ensures |Allowed(chain, denied)| <= |chain|
    ensures IsWithoutDenied(chain, denied, Allowed(chain, denied))
    ensures forall t :: t in Allowed(chain, denied) <==> t in chain && t.provider !in denied
  {
    var ks := FilterSelects(chain, (t: Target) => t.provider !in denied);
    assert AreNotDenied(chain, denied, ks);
    IncreasingIsShort(ks, |chain|);
  }

  /** The targets of a route that has been packed into a slot again. */
  lemma {:induction false} PackedChain(chain: seq<Target>)
    requires 1 <= |chain| <= 3
    ensures Configured(Slot(chain[0], if |chain| > 1 then Some(chain[1]) else None,
                            if |chain| > 2 then Some(chain[2]) else None)) == chain
  {
  }

  /**
   Sensitive requests use the configured chain without the denied providers and in its order; there is no
   route exactly when every provider is denied.
   */
  lemma {:induction false} SensitiveRoute(table: Table, task: string, budget: Budget)
    requires (task, budget) in table.defaults
    ensures var chain := Configured(table.defaults[(task, budget)]);
            var route := Resolve(table, task, budget, Sensitive);
            && !route.NoSlot?
            && (route.NoRoute? <==> forall t | t in chain :: t.provider in table.denied)
            && (route.Routed? ==>
                  && IsWithoutDenied(chain, table.denied, Configured(route.slot))
                  && (route.slot.tertiary.Some? ==> route.slot.secondary.Some?)
                  && forall t | t in Configured(route.slot) :: t.provider !in table.denied)
  {
    hide Allowed, IsWithoutDenied;
    var slot := table.defaults[(task, budget)];
    var chain := Configured(slot);
    var kept := Allowed(chain, table.denied);
    AllowedSelects(chain, table.denied);
    assert |kept| <= 3;
    assert Resolve(table, task, budget, Sensitive) == DropDenied(slot, table.denied);
    hide Resolve;
    if kept == [] {
      forall t | t in chain ensures t.provider in table.denied {
        assert t in kept <==> t.provider !in table.denied;
      }
    } else {
      PackedChain(kept);
      assert kept[0] in kept;
    }
  }

  // ---------------------------------------------------------------- fallback

  /** What decoding a reply gives: an exception, no JSON, or a value. */
  datatype Decoded<+J> = Raises | NoJson | Json(value: J)

  /** The decoder, and the errors of the schema, None if the validation itself raises. */
  datatype Validator<!J> = Validator(extract: string -> Decoded<J>, errors: J -> Option<seq<string>>)

  datatype Verdict<+J> = Broken | Invalid | Valid(value: J)

  function Judge<J>(v: Validator<J>, content: string): Verdict<J> {
    match v.extract(content)
    case Raises => Broken
    case NoJson => Invalid
    case Json(value) =>
      var errors := v.errors(value);
      if errors.None? then Broken else if errors.value == [] then Valid(value) else Invalid
  }

  /** The attempts for a route: its set fields under their own names. */
  function Attempts(slot: Slot): seq<(Tier, Target)> {
    [(Primary, slot.primary)]
    + (if slot.secondary.Some? then [(Secondary, slot.secondary.value)] else [])
    + (if slot.tertiary.Some? then [(Tertiary, slot.tertiary.value)] else [])
  }

  /** A request: `schema` is the validator for a non-empty output schema. */
  datatype Request<!J> = Request(task: string, budget: Budget, privacy: Privacy, schema: Option<Validator<J>>)

  /** The outside world: what the provider of an attempt answers, or None if it raises. */
  type Providers = (nat, Target) -> Option<string>

  /** Whether the gateway returns this answer. */
  predicate Stops<J>(escalate: bool, schema: Option<Validator<J>>, answer: Option<string>) {
    && answer.Some?
    && (schema.Some? ==>
          var verdict := Judge(schema.value, answer.value);
          !verdict.Broken? && (escalate ==> verdict.Valid?))
  }

  class ModelResponse<J> {
    var content: string
    var tierUsed: Tier
    var parsed: Option<J>
    var schemaValid: Option<bool>
    var schemaErrors: seq<string>

    constructor (content: string)
      ensures this.content == content && parsed == None && schemaValid == None && schemaErrors == []
    {
      this.content, tierUsed, parsed, schemaValid, schemaErrors := content, Primary, None, None, [];
    }

    /** False if it raises. */
    method AttachValidation(v: Validator<J>) returns (done: bool)
      modifies `parsed, `schemaValid, `schemaErrors
      ensures done <==> (match v.extract(content)
                         case Raises => false
                         case NoJson => true
                         case Json(value) => v.errors(value).Some?)
      ensures done ==> match v.extract(content)
                       case NoJson => schemaValid == Some(false) && schemaErrors != [] && parsed == old(parsed)
                       case Json(value) =>
                         && Some(schemaErrors) == v.errors(value) && schemaValid == Some(schemaErrors == [])
                         && parsed == (if schemaErrors == [] then Some(value) else None)
                       case Raises => false
      ensures done <==> !Judge(v, content).Broken?
      ensures done && (v.extract(content).Json? || old(parsed) == None) ==> Judged(v)
    {
      var found := v.extract(content);
      if found.Raises? {
        return false;
      }
      if found.NoJson? {
        schemaValid := Some(false);
        schemaErrors := ["model output was not valid JSON"];
        return true;
      }
      var errors := v.errors(found.value);
      if errors.None? {
        return false;
      }
      parsed := if errors.value == [] then Some(found.value) else None;
      schemaValid := Some(errors.value == []);
      schemaErrors := errors.value;
      done := true;
    }

    /** The fields say what the schema says. */
    ghost predicate Judged(v: Validator<J>)
      reads this
    {
      var verdict := Judge(v, content);
      && schemaValid == Some(verdict.Valid?)
      && parsed == if verdict.Valid? then Some(verdict.value) else None
    }
  }

  /** What is tried for a request: the targets of its route, or nothing if it has none. */
  function Chain<J>(table: Table, req: Request<J>): seq<Target> {
    var route := Resolve(table, req.task, req.budget, req.privacy);
    if route.Routed? then Configured(route.slot) else []
  }

  /**
   Who may be asked, and in which order: for an air-gapped request the one target of its table, whatever is
   denied; otherwise the configured targets, without the denied providers if the request is sensitive.
   */
  ghost predicate IsChainFor<J>(table: Table, req: Request<J>, chain: seq<Target>) {
    if req.privacy.AirGapped? then
      chain == if req.task in table.airGapped then [table.airGapped[req.task]] else []
    else if (req.task, req.budget) !in table.defaults then chain == []
    else
      var configured := Configured(table.defaults[(req.task, req.budget)]);
      if req.privacy.Sensitive? then IsWithoutDenied(configured, table.denied, chain) else chain == configured
  }

  lemma {:induction false} ChainIsAllowed<J>(table: Table, req: Request<J>)
    ensures IsChainFor(table, req, Chain(table, req))
  {
    if req.privacy.Sensitive? && (req.task, req.budget) in table.defaults {
      var slot := table.defaults[(req.task, req.budget)];
      SensitiveRoute(table, req.task, req.budget);
      AllowedSelects(Configured(slot), table.denied);
      assert Allowed(Configured(slot), table.denied) == [] ==> Chain(table, req) == [];
    }
  }

  /** Exactly which answers the gateway returns. */
  lemma {:induction false} StopsIff<J>(escalate: bool, v: Validator<J>, content: string)
    ensures Stops<J>(escalate, None, Some(content)) && !Stops<J>(escalate, None, None)
    ensures !Stops(escalate, Some(v), None)
    ensures Stops(escalate, Some(v), Some(content)) <==>
              match v.extract(content)
              case Raises => false
              case NoJson => !escalate
              case Json(value) => v.errors(value).Some? && (escalate ==> v.errors(value).value == [])
  {
  }

  /**
   `Gateway.complete`; null if there is no route or all tiers are exhausted. It goes down the chain and
   returns the first answer that stops it: with a schema and escalation the first valid one, with a schema
   alone the first that can be validated at all, without a schema the first.
   */
  method Complete<J>(table: Table, req: Request<J>, providers: Providers)
    returns (resp: ModelResponse?<J>, tried: seq<Target>)
    ensures IsChainFor(table, req, Chain(table, req))
    ensures tried <= Chain(table, req) && (resp == null ==> tried == Chain(table, req))
    ensures forall i | 0 <= i < |tried| - 1 :: !Stops(table.escalate, req.schema, providers(i, tried[i]))
    ensures tried != [] ==>
              var last := providers(|tried| - 1, tried[|tried| - 1]);
              (resp != null <==> Stops(table.escalate, req.schema, last))
    ensures resp != null ==>
              && fresh(resp) && tried != []
              && providers(|tried| - 1, tried[|tried| - 1]) == Some(resp.content)
              && resp.tierUsed
                   == Attempts(Resolve(table, req.task, req.budget, req.privacy).slot)[|tried| - 1].0
              && (req.schema.Some? ==> resp.Judged(req.schema.value))
              && (req.schema.None? ==> resp.parsed == None && resp.schemaValid == None)
    ensures resp != null && req.schema.Some? && table.escalate ==> resp.schemaValid == Some(true) && resp.parsed.Some?
  {
    ChainIsAllowed(table, req);
    hide Judge, DropDenied, Allowed, Stops, IsChainFor;
    var route := Resolve(table, req.task, req.budget, req.privacy);
    tried := [];
    if !route.Routed? {
      return null, [];
    }
    var attempts := Attempts(route.slot);
    AttemptsFollowChain(route.slot);
    var i := 0;
    while i < |attempts|
      invariant 0 <= i <= |attempts| && tried == Configured(route.slot)[..i]
      invariant forall k | 0 <= k < i :: !Stops(table.escalate, req.schema, providers(k, tried[k]))
    {
      var (tier, target) := attempts[i];
      tried := tried + [target];
      resp := AskTier(table.escalate, req, tier, providers(i, target));
      if resp != null {
        return resp, tried;
      }
      i := i + 1;
    }
    resp := null;
  }

  /** The body of the loop: the response to return, or null to go on. */
  method AskTier<J>(escalate: bool, req: Request<J>, tier: Tier, answer: Option<string>)
    returns (resp: ModelResponse?<J>)
    ensures resp != null <==> Stops(escalate, req.schema, answer)
    ensures resp != null ==>
              && fresh(resp) && answer == Some(resp.content) && resp.tierUsed == tier
              && (req.schema.Some? ==> resp.Judged(req.schema.value))
              && (req.schema.None? ==> resp.parsed == None && resp.schemaValid == None)
              && (req.schema.Some? && escalate ==> resp.schemaValid == Some(true) && resp.parsed.Some?)
  {
    if answer.None? {
      return null;
    }
    var r := new ModelResponse<J>(answer.value);
    r.tierUsed := tier;
    if req.schema.None? {
      return r;
    }
    var done := r.AttachValidation(req.schema.value);
    if !done || (r.schemaValid == Some(false) && escalate) {
      return null;
    }
    resp := r;
  }

  lemma {:induction false} AttemptsFollowChain(slot: Slot)
    ensures |Attempts(slot)| == |Configured(slot)|
    ensures forall i | 0 <= i < |Attempts(slot)| :: Attempts(slot)[i].1 == Configured(slot)[i]
  {
  }

  /** Tiers are named by position, but for a slot that has a tertiary target and no secondary one. */
  lemma {:induction false} TierIsPosition(slot: Slot)
    ensures (forall i | 0 <= i < |Attempts(slot)| ::
               Attempts(slot)[i].0 == if i == 0 then Primary else if i == 1 then Secondary else Tertiary)
       <==> (slot.tertiary.Some? ==> slot.secondary.Some?)
  {
    if slot.tertiary.Some? && slot.secondary.None? {
      assert Attempts(slot)[1].0 == Tertiary;
    }
  }
}
