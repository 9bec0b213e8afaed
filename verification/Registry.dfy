/** The agent registry (internal/registry/registry.go). */
module Registry {
  import opened Wrappers
  import opened Strings
  import opened Claims
  import opened FirstFailure

  // An RFC 3339 field of the document.
  datatype TimeField = Unset | At(nanos: int) | Unparseable

  datatype Agent = Agent(id: string, workloads: seq<string>, audiences: seq<string>, maxScopes: seq<string>,
                         maxDepth: int, createdAt: TimeField, expiry: TimeField)

  datatype File = File(version: int, agents: seq<Agent>)

  datatype Registry = Registry(byId: map<string, Agent>, agents: seq<Agent>)

  datatype RegistryError =
    | Invalid | EmptyId | BadMaxDepth | InvertedWindow | DuplicateAgent
    | AgentNotFound | NotAuthorized | AudienceNotAllowed | BeforeWindow | AfterWindow

  // parseTime: an unset field is the zero time, which bounds nothing.
  function InstantOf(f: TimeField): int {
    if f.At? then f.nanos else ZERO_TIME
  }

  function ValidateAgent(a: Agent): Option<RegistryError> {
    if Blank(a.id) then Some(EmptyId)
    else if !Contains(a.id, "://") then Some(Invalid)
    else if a.maxDepth < 1 then Some(BadMaxDepth)
    else if a.workloads == [] || exists w | w in a.workloads :: Blank(w) then Some(Invalid)
    else if a.audiences == [] then Some(Invalid)
    else if a.createdAt.Unparseable? || a.expiry.Unparseable? then Some(Invalid)
    else if InstantOf(a.createdAt) != ZERO_TIME && InstantOf(a.expiry) != ZERO_TIME
            && InstantOf(a.expiry) <= InstantOf(a.createdAt) then Some(InvertedWindow)
    else None
  }

  // What an agent has to be, and which error a document gets for it.
  ghost function AgentConditions(a: Agent): seq<Check<RegistryError>> {
    [ Check(exists k :: 0 <= k < |a.id| && !IsSpace(a.id[k]), EmptyId),
      Check(exists before, after :: a.id == before + "://" + after, Invalid),
      Check(a.maxDepth >= 1, BadMaxDepth),
      Check(a.workloads != [] && forall w | w in a.workloads :: exists k :: 0 <= k < |w| && !IsSpace(w[k]), Invalid),
      Check(a.audiences != [], Invalid),
      Check(!a.createdAt.Unparseable? && !a.expiry.Unparseable?, Invalid),
      Check(a.createdAt.At? && a.expiry.At? && a.createdAt.nanos != ZERO_TIME && a.expiry.nanos != ZERO_TIME ==>
              a.createdAt.nanos < a.expiry.nanos, InvertedWindow)]
  }

  lemma ValidateDecides(a: Agent)
    ensures Decides(AgentConditions(a), ValidateAgent(a))
  {
    var cs := AgentConditions(a);
    ContainsIff(a.id, "://");
    assert cs[0].holds <==> !Blank(a.id);
    assert cs[3].holds <==> a.workloads != [] && !exists w | w in a.workloads :: Blank(w);
    assert AllHold(cs) <==> cs[0].holds && cs[1].holds && cs[2].holds && cs[3].holds && cs[4].holds && cs[5].holds
                            && cs[6].holds;
  }

  // What every published registry satisfies.
  ghost predicate ValidRegistry(r: Registry) {
    forall id | id in r.byId :: r.byId[id].id == id && ValidateAgent(r.byId[id]).None?
  }

  function Indexed(agents: seq<Agent>): map<string, Agent> {
    if agents == [] then map[]
    else Indexed(agents[..|agents| - 1])[agents[|agents| - 1].id := agents[|agents| - 1]]
  }

  // Each agent is valid and its id is new.
  predicate Acceptable(agents: seq<Agent>) {
    agents == [] ||
    var init, a := agents[..|agents| - 1], agents[|agents| - 1];
    Acceptable(init) && ValidateAgent(a).None? && a.id !in Indexed(init)
  }

  method New(f: File) returns (out: Result<Registry, RegistryError>)
    ensures out.Ok? <==> f.version == 1 && f.agents != [] && Acceptable(f.agents)
    ensures out.Ok? ==> out.value == Registry(Indexed(f.agents), f.agents) && ValidRegistry(out.value)
  {
    hide ValidateAgent;
    if f.version != 1 || |f.agents| == 0 {
      return Err(Invalid);
    }
    var byId: map<string, Agent>, agents: seq<Agent> := map[], [];
    for i := 0 to |f.agents|
      invariant agents == f.agents[..i] && byId == Indexed(f.agents[..i]) && Acceptable(f.agents[..i])
    {
      var a := f.agents[i];
      assert f.agents[..i + 1][..i] == f.agents[..i];
      var bad := ValidateAgent(a);
      if bad.Some? {
        NotAcceptable(f.agents, i + 1);
        return Err(bad.value);
      }
      if a.id in byId {
        NotAcceptable(f.agents, i + 1);
        return Err(DuplicateAgent);
      }
      byId, agents := byId[a.id := a], agents + [a];
    }
    assert f.agents[..|f.agents|] == f.agents;
    AcceptableMeans(f.agents);
    return Ok(Registry(byId, agents));
  }

  lemma {:induction false} NotAcceptable(agents: seq<Agent>, i: nat)
    requires i <= |agents| && !Acceptable(agents[..i])
    ensures !Acceptable(agents)
    decreases |agents| - i
  {
    if i < |agents| {
      assert agents[..i + 1][..i] == agents[..i];
      NotAcceptable(agents, i + 1);
    } else {
      assert agents[..i] == agents;
    }
  }

  // An accepted document: valid agents, no id twice, every one found by its id.
  lemma {:induction false} AcceptableMeans(agents: seq<Agent>)
    requires Acceptable(agents)
    ensures forall i | 0 <= i < |agents| :: FoundById(agents, i)
    ensures forall i, j | 0 <= i < j < |agents| :: agents[i].id != agents[j].id
    ensures ValidRegistry(Registry(Indexed(agents), agents))
  {
    hide ValidateAgent;
    if agents != [] {
      var init, a := agents[..|agents| - 1], agents[|agents| - 1];
      AcceptableMeans(init);
      forall i | 0 <= i < |init| ensures FoundById(agents, i) && agents[i].id != a.id {
        assert FoundById(init, i) && init[i] == agents[i];
      }
      assert FoundById(agents, |init|);
    }
  }

  // Agent i is valid and what its id is looked up to.
  ghost predicate FoundById(agents: seq<Agent>, i: nat) {
    && i < |agents| && ValidateAgent(agents[i]).None?
    && agents[i].id in Indexed(agents) && Indexed(agents)[agents[i].id] == agents[i]
  }

  function ValidateAt(a: Agent, now: int): Option<RegistryError> {
    if a.createdAt.Unparseable? then Some(Invalid)
    else if a.createdAt.At? && now < a.createdAt.nanos then Some(BeforeWindow)
    else if a.expiry.Unparseable? then Some(Invalid)
    else if a.expiry.At? && now >= a.expiry.nanos then Some(AfterWindow)
    else None
  }

  function Authorize(r: Registry, agentId: string, workload: string, audience: string, now: int)
    : Result<Agent, RegistryError>
  {
    if agentId !in r.byId then Err(AgentNotFound)
    else
      var a := r.byId[agentId];
      if ValidateAt(a, now).Some? then Err(ValidateAt(a, now).value)
      else if workload !in a.workloads then Err(NotAuthorized)
      else if audience != "" && audience !in a.audiences then Err(AudienceNotAllowed)
      else Ok(a)
  }
}
