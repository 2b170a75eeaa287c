/**
 * The earlier agent: the same bootstrap guards without rule rebuilding, one
 * exit advice for every selected method, and a `parseMockValue` without any
 * structured (JSON) handling.
 */
module LegacyAgent {
  import opened JavaText
  import LegacyRuleStore
  import opened Agent

  /**
   * `MockInterceptor.parseMockValue`: null stays null, a null descriptor makes
   * the `switch` throw (null), the scalar descriptors use their parser (a
   * failure is null), and "java.lang.String" and every other descriptor give
   * the text back.
   */
  function LegacyParseMockValue(value: JStr, rtype: JStr, host: Host): (r: MockValue)
    ensures value.None? || rtype.None? ==> r == NullValue
    ensures !r.JsonValue?
    ensures r.TextValue? ==> value.Some? && r.s == value.value
  {
    if value.None? || rtype.None? then NullValue
    else
      var v := value.value;
      var t := rtype.value;
      if IsIntType(t) then
        (match ParseInt(value) case Some(n) => IntValue(n) case None => NullValue)
      else if IsLongType(t) then
        (match ParseLong(value) case Some(n) => LongValue(n) case None => NullValue)
      else if IsDoubleType(t) then
        (if host.decimalParses(DoubleKind, v) then DecimalValue(DoubleKind, v) else NullValue)
      else if IsFloatType(t) then
        (if host.decimalParses(FloatKind, v) then DecimalValue(FloatKind, v) else NullValue)
      else if IsBooleanType(t) then BoolValue(ParseBoolean(value))
      else TextValue(v)
  }

  /**
   * The earlier parser agrees with the current one on every scalar descriptor
   * and on plain text; it never builds a structured value, and a non-scalar
   * descriptor always gives the text back, '[' or '{' included.
   */
  lemma LegacyParseComparedToCurrent(value: JStr, rtype: JStr, host: Host)
    ensures !LegacyParseMockValue(value, rtype, host).JsonValue?
    ensures rtype.Some? && IsScalarType(rtype.value) ==>
      LegacyParseMockValue(value, rtype, host) == ParseMockValue(value, rtype, host)
    ensures value.Some? && rtype.Some? && !IsScalarType(rtype.value) ==>
      LegacyParseMockValue(value, rtype, host) == TextValue(value.value)
    ensures value.Some? && !StartsWith(value.value, "[") && !StartsWith(value.value, "{") ==>
      LegacyParseMockValue(value, rtype, host) == ParseMockValue(value, rtype, host)
  {
  }

  /** `config.getMockRule(className, methodName)` on a possibly-null legacy config. */
  function LookupLegacyRule(rules: Option<map<string, LegacyRuleStore.MockRule>>, className: string,
                            methodName: string): Option<LegacyRuleStore.MockRule>
  {
    if rules.None? then None
    else
      var key := LegacyRuleStore.RuleKey(Some(className), Some(methodName));
      if key in rules.value then Some(rules.value[key]) else None
  }

  /**
   * The exit advice `MockInterceptor.intercept`: the value the method returns
   * after the advice ran, given what the original body returned.
   */
  function OnMethodExit(rules: Option<map<string, LegacyRuleStore.MockRule>>, className: string,
                        methodName: string, returned: MockValue, host: Host): (r: MockValue)
    ensures r != returned ==>
      var rule := LookupLegacyRule(rules, className, methodName);
      r != NullValue && rule.Some? && rule.value.enabled
  {
    var rule := LookupLegacyRule(rules, className, methodName);
    if rule.Some? && rule.value.enabled then
      var mockValue := LegacyParseMockValue(rule.value.returnValue, rule.value.returnType, host);
      if mockValue != NullValue then mockValue else returned
    else returned
  }

  /**
   * The original result survives a null config, a missing or disabled rule,
   * and a mock value that parses to null; otherwise the parsed value replaces it.
   */
  lemma ExitAdviceKeepsOrReplaces(rules: Option<map<string, LegacyRuleStore.MockRule>>, c: string, m: string,
                                  returned: MockValue, host: Host)
    ensures var rule := LookupLegacyRule(rules, c, m);
      var r := OnMethodExit(rules, c, m, returned, host);
      && (rules.None? || rule.None? || !rule.value.enabled ==> r == returned)
      && (rule.Some? && rule.value.enabled ==>
            var parsed := LegacyParseMockValue(rule.value.returnValue, rule.value.returnType, host);
            r == if parsed == NullValue then returned else parsed)
    ensures OnMethodExit(rules, c, m, returned, host) != NullValue || returned == NullValue
  {
  }

  /** An int rule whose text does not parse keeps the original result. */
  lemma UnparsableIntKeepsOriginal(rules: map<string, LegacyRuleStore.MockRule>, c: string, m: string,
                                   returned: MockValue, host: Host)
    requires LegacyRuleStore.RuleKey(Some(c), Some(m)) in rules
    requires var rule := rules[LegacyRuleStore.RuleKey(Some(c), Some(m))];
      rule.returnType == Some("int") && rule.returnValue == Some("12x")
    ensures OnMethodExit(Some(rules), c, m, returned, host) == returned
  {
    assert !AllDigits("12x") by { assert !IsDigit("12x"[2]); }
  }

  /** Outcome of `gson.fromJson(new FileReader(path), MockConfig.class)`. */
  datatype LegacyLoad = LoadThrew | LoadedNull | Loaded(config: LegacyRuleStore.MockConfig)

  class LegacyMockAgent {
    var mockConfig: LegacyRuleStore.MockConfig?
    var transformerInstalled: bool

    constructor ()
      ensures mockConfig == null && !transformerInstalled
    {
      mockConfig := null;
      transformerInstalled := false;
    }

    /** `loadMockConfig`: the loaded config as it is, rules never rebuilt; a failed read changes nothing. */
    method LoadMockConfig(load: LegacyLoad)
      modifies this`mockConfig
      ensures load.LoadThrew? ==> mockConfig == old(mockConfig)
      ensures load.LoadedNull? ==> mockConfig == null
      ensures load.Loaded? ==> mockConfig == load.config
    {
      match load {
        case LoadThrew =>
        case LoadedNull =>
          mockConfig := null;
        case Loaded(cfg) =>
          mockConfig := cfg;
      }
    }

    /** `premain`: installs the transformer exactly when a config with a non-empty rule map is present. */
    method Premain(agentArgs: JStr, load: LegacyLoad)
      modifies this
      ensures IsNullOrEmpty(agentArgs) ==> mockConfig == old(mockConfig)
      ensures !IsNullOrEmpty(agentArgs) && load.Loaded? ==> mockConfig == load.config
      ensures !IsNullOrEmpty(agentArgs) && load.LoadedNull? ==> mockConfig == null
      ensures !IsNullOrEmpty(agentArgs) && load.LoadThrew? ==> mockConfig == old(mockConfig)
      ensures transformerInstalled <==> old(transformerInstalled) || (mockConfig != null && mockConfig.mockRules != map[])
    {
      if !IsNullOrEmpty(agentArgs) {
        LoadMockConfig(load);
      }
      if mockConfig == null || mockConfig.mockRules == map[] {
        return;
      }
      transformerInstalled := true;
    }

    /**
     * The transformer for a loading class: the names of the methods that get
     * the exit advice, one per enabled rule whose key starts with
     * `className + "."`; interfaces are not told apart.
     */
    method Transform(className: string) returns (advised: set<string>)
      requires mockConfig != null
      ensures forall m :: m in advised <==>
        className + "." + m in mockConfig.mockRules && mockConfig.mockRules[className + "." + m].enabled
    {
      var rules := mockConfig.mockRules;
      var remaining := rules.Keys;
      advised := {};
      while remaining != {}
        invariant remaining <= rules.Keys
        invariant forall m :: m in advised <==>
          className + "." + m in rules.Keys - remaining && rules[className + "." + m].enabled
        decreases remaining
      {
        var key :| key in remaining;
        var name := MethodNameOf(key, className);
        if name.Some? && rules[key].enabled {
          advised := advised + {name.value};
        }
        forall m | className + "." + m == key
          ensures name == Some(m)
        {
          assert StartsWith(key, className + ".");
          assert key[|className| + 1..] == m;
        }
        remaining := remaining - {key};
      }
    }

    /** The exit advice, reading the agent's config. */
    function AfterCall(className: string, methodName: string, returned: MockValue, host: Host): (r: MockValue)
      reads this, mockConfig
      ensures mockConfig == null ==> r == returned
      ensures r != returned ==> r != NullValue && mockConfig != null
    {
      OnMethodExit(if mockConfig == null then None else Some(mockConfig.mockRules), className, methodName, returned, host)
    }
  }
}
