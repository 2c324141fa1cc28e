/**
 Answering an HTTP request: stubs first, then rules, then the endpoints of the server, then
 its default, and otherwise 404.
 */
module Dispatch {
  import opened Util
  import opened Conditions
  import opened Ordering
  import opened Rules
  import opened RuleSelection
  import opened StubCache
  import ConfigLoader
  import PathPattern
  import Templater

  datatype Endpoint = Endpoint(verb: string, pathPattern: string, status: int, payload: Option<string>)

  datatype ServerConfig = ServerConfig(endpoints: seq<Endpoint>, defaultStatus: int, defaultPayload: Option<string>)

  /** Where an answer comes from (`matched_by`). */
  datatype Answer =
    | ByStub(stub: HttpStub)
    | ByRule(rule: Rule, params: Params)
    | ByEndpoint(endpoint: Endpoint, params: Params)
    | ServerDefault(config: ServerConfig)
    | NoMatch   // status 404

  function Or(payload: Option<string>): string {
    if payload.None? then "" else payload.value
  }

  /** The rule is for this server: named, or unnamed when there is only one server. */
  predicate ForServer(servers: nat, rule: Rule, server: string) {
    rule.inputType == "http" && !rule.skip
    && (rule.connectionRef == Some(server) || (rule.connectionRef.None? && servers == 1))
  }

  /** The path parameters under which an HTTP rule answers a request of its server, if it does. */
  function RuleParams(matchers: Matchers, rule: Rule, req: Request): Option<Params> {
    var params := PathPattern.Extract(rule.destination, req.path);
    if (rule.inputMethod == "*" || rule.inputMethod == Upper(req.verb))
      && params.Some?
      && AllMatch(c => matchers(c, req, params.value), rule.conditions)
    then params else None
  }

  function EndpointParams(endpoint: Endpoint, req: Request): Option<Params> {
    if endpoint.verb == "*" || Upper(endpoint.verb) == Upper(req.verb)
    then PathPattern.Extract(endpoint.pathPattern, req.path)
    else None
  }

  function RuleAnswers(servers: nat, matchers: Matchers, req: Request): Rule -> bool {
    (r: Rule) => ForServer(servers, r, req.server) && RuleParams(matchers, r, req).Some?
  }

  function EndpointAnswers(req: Request): Endpoint -> bool {
    (e: Endpoint) => EndpointParams(e, req).Some?
  }

  /** Without lower-case letters, as the loader leaves the method of a rule. */
  predicate NoLower(s: string) {
    forall i | 0 <= i < |s| :: !('a' <= s[i] <= 'z')
  }

  /** What it takes for a rule to answer: a live HTTP rule of the server, verb, path and conditions. */
  lemma RuleAnswersExactly(servers: nat, matchers: Matchers, req: Request, rule: Rule)
    ensures var params := PathPattern.Extract(rule.destination, req.path);
      && (RuleAnswers(servers, matchers, req)(rule) <==>
            && rule.inputType == "http" && !rule.skip
            && (if rule.connectionRef.None? then servers == 1 else rule.connectionRef.value == req.server)
            && (rule.inputMethod == "*" || (SameButCase(rule.inputMethod, req.verb) && NoLower(rule.inputMethod)))
            && params.Some?
            && forall c | c in rule.conditions :: matchers(c, req, params.value) == Matched)
      && (RuleAnswers(servers, matchers, req)(rule) ==> RuleParams(matchers, rule, req) == params)
  {
    IsUpperOf(rule.inputMethod, req.verb);
  }

  /** What it takes for an endpoint to answer: verb and path. */
  lemma EndpointAnswersExactly(endpoint: Endpoint, req: Request)
    ensures var params := PathPattern.Extract(endpoint.pathPattern, req.path);
      EndpointParams(endpoint, req) ==
        if endpoint.verb == "*" || SameButCase(endpoint.verb, req.verb) then params else None
  {
    UpperEqual(endpoint.verb, req.verb);
  }

  /** `_try_rule_match`: skipped rules are left out before any is tried. */
  method TryRuleMatch(loader: ConfigLoader.ConfigLoader, servers: nat, matchers: Matchers, req: Request)
    returns (r: Option<(Rule, Params)>)
    requires loader.Valid()
    ensures match First(RuleAnswers(servers, matchers, req), loader.rules)
      case None => r == None
      case Some(rule) => r.Some? && r.value.0 == rule && RuleParams(matchers, rule, req) == Some(r.value.1)
  {
    var allRules := loader.GetAllRules();
    var httpRules := Filter((x: Rule) => ForServer(servers, x, req.server), allRules);
    ghost var hit := (x: Rule) => RuleParams(matchers, x, req).Some?;
    FirstFiltered(hit, (x: Rule) => ForServer(servers, x, req.server), RuleAnswers(servers, matchers, req), allRules);
    r := None;
    for i := 0 to |httpRules|
      invariant First(hit, httpRules) == First(hit, httpRules[i..]) && r.None?
    {
      var rule := httpRules[i];
      assert httpRules[i..][0] == rule && httpRules[i..][1..] == httpRules[i + 1..];
      if rule.inputMethod != "*" && rule.inputMethod != Upper(req.verb) {
        continue;
      }
      var pathParams := PathPattern.Extract(rule.destination, req.path);
      if pathParams.None? {
        continue;
      }
      var judge := c => matchers(c, req, pathParams.value);
      var matched := Evaluate(judge, rule.conditions);
      assert matched <==> RuleParams(matchers, rule, req).Some?;
      if matched {
        FirstIn(hit, httpRules);
        return Some((rule, pathParams.value));
      }
    }
  }

  /** `_try_endpoint_default` */
  method TryEndpointDefault(config: ServerConfig, req: Request) returns (r: Option<(Endpoint, Params)>)
    ensures match First(EndpointAnswers(req), config.endpoints)
      case None => r == None
      case Some(e) => r.Some? && r.value.0 == e && EndpointParams(e, req) == Some(r.value.1)
  {
    var endpoints := config.endpoints;
    for i := 0 to |endpoints|
      invariant First(EndpointAnswers(req), endpoints) == First(EndpointAnswers(req), endpoints[i..])
    {
      var ep := endpoints[i];
      assert endpoints[i..][0] == ep && endpoints[i..][1..] == endpoints[i + 1..];
      if ep.verb != "*" && Upper(ep.verb) != Upper(req.verb) {
        continue;
      }
      var params := PathPattern.Extract(ep.pathPattern, req.path);
      if params.None? {
        continue;
      }
      return Some((ep, params.value));
    }
    return None;
  }

  class MockDispatchHandler {
    const loader: ConfigLoader.ConfigLoader
    const servers: map<string, ServerConfig>
    const cache: HttpStubCache

    constructor (loader: ConfigLoader.ConfigLoader, servers: map<string, ServerConfig>, cache: HttpStubCache)
      ensures this.loader == loader && this.servers == servers && this.cache == cache
    {
      this.loader, this.servers, this.cache := loader, servers, cache;
    }

    /**
     `dispatch`: an answer from one layer means that no layer above it has one.  A request
     answered by a stub is one more call of that stub; no other request is a call of any.  The
     conditions of stubs and of rules are matched with different arguments.
     */
    method Dispatch(stubMatchers: Matchers, ruleMatchers: Matchers, req: Request, now: real) returns (a: Answer)
      requires loader.Valid()
      modifies cache.stubs
      ensures var stub := FirstMatch(stubMatchers, cache.stubs, req);
        var rule := First(RuleAnswers(|servers|, ruleMatchers, req), loader.rules);
        var endpoint := if req.server in servers then First(EndpointAnswers(req), servers[req.server].endpoints)
          else None;
        match a
        case ByStub(s) => stub == Some(s)
        case ByRule(r, params) => stub.None? && rule == Some(r) && RuleParams(ruleMatchers, r, req) == Some(params)
        case ByEndpoint(e, params) =>
          stub.None? && rule.None? && endpoint == Some(e) && EndpointParams(e, req) == Some(params)
        case ServerDefault(config) =>
          stub.None? && rule.None? && endpoint.None? && req.server in servers && servers[req.server] == config
        case NoMatch => stub.None? && rule.None? && req.server !in servers
      ensures forall s | s in cache.stubs :: |s.calls| == |old(s.calls)| + if a == ByStub(s) then 1 else 0
      ensures forall s | s in cache.stubs :: old(s.calls) <= s.calls
    {
      var stub := cache.Match(stubMatchers, req, now);
      if stub.Some? {
        return ByStub(stub.value);
      }
      var ruleResult := TryRuleMatch(loader, |servers|, ruleMatchers, req);
      if ruleResult.Some? {
        return ByRule(ruleResult.value.0, ruleResult.value.1);
      }
      if req.server in servers {
        var serverCfg := servers[req.server];
        var endpointResult := TryEndpointDefault(serverCfg, req);
        if endpointResult.Some? {
          return ByEndpoint(endpointResult.value.0, endpointResult.value.1);
        }
        return ServerDefault(serverCfg);
      }
      return NoMatch;
    }
  }

  /** A skipped rule never answers, so it hides nothing: HTTP differs from Kafka here. */
  lemma {:induction false} SkippedRulesHideNothing(rules: seq<Rule>, servers: nat, matchers: Matchers, req: Request)
    ensures First(RuleAnswers(servers, matchers, req), rules)
         == First(RuleAnswers(servers, matchers, req), Filter(NotSkipped(), rules))
  {
    var p := RuleAnswers(servers, matchers, req);
    FirstFiltered(p, NotSkipped(), p, rules);
  }

  // ----- executing a rule --------------------------------------------------

  /** The response of a rule, and what is sent after it. */
  datatype Response = Response(status: int, body: string, post: seq<Output>)

  predicate IsResponse(o: Output) { o.msgType == "http_response" }

  /**
   `_execute_rule`: `pre` is sent before the response, in order.  Nothing is lost, nothing
   is sent twice: the outputs are `pre`, the first http_response if there is one, and `post`.
   */
  method ExecuteRule(rule: Rule, resolve: string -> Option<string>) returns (pre: seq<Output>, response: Response)
    ensures |pre| <= |rule.outputs| && pre == rule.outputs[..|pre|] && forall o | o in pre :: !IsResponse(o)
    ensures |pre| == |rule.outputs| ==> response == Response(200, "", [])
    ensures |pre| < |rule.outputs| ==> var o := rule.outputs[|pre|];
      && IsResponse(o)
      && response == Response(o.statusCode, Templater.Render(Some(Or(o.payload)), resolve), rule.outputs[|pre| + 1..])
  {
    var httpResponse: Option<Output>, post: seq<Output> := None, [];
    pre := [];
    for i := 0 to |rule.outputs|
      invariant forall o | o in pre :: !IsResponse(o)
      invariant httpResponse.None? ==> pre == rule.outputs[..i] && post == []
      invariant httpResponse.Some? ==>
        && |pre| < i && pre == rule.outputs[..|pre|] && rule.outputs[|pre|] == httpResponse.value
        && IsResponse(httpResponse.value) && post == rule.outputs[|pre| + 1..i]
    {
      var out := rule.outputs[i];
      if httpResponse.None? {
        if out.msgType == "http_response" {
          httpResponse := Some(out);
        } else {
          pre := pre + [out];
        }
      } else {
        post := post + [out];
      }
    }
    match httpResponse
    case None => response := Response(200, "", post);
    case Some(out) => response := Response(out.statusCode, Templater.Render(Some(Or(out.payload)), resolve), post);
  }
}
