/**
 * The agent: bootstrap (`premain` and config loading), the class-load
 * selection of mocked methods, and the per-call decision of the two
 * interceptors, with `parseMockValue` and `createException`.
 *
 * Everything foreign is a parameter: `Host` says which class names
 * `Class.forName` resolves (and what they are), which texts Gson accepts for
 * a target shape, and which texts `Double.parseDouble`/`Float.parseFloat`
 * accept. Calling the original method is the outcome `CallOriginal`.
 */
module Agent {
  import opened JavaText
  import opened MethodSpec
  import opened RuleStore

  /** What `Class.forName` finds under a name. */
  datatype ClassInfo = ClassInfo(
    isException: bool,          // Exception.class.isAssignableFrom(it)
    stringConstructorWorks: bool) // getConstructor(String).newInstance(..) succeeds

  /** The shape Gson is asked to build. */
  datatype JsonTarget = UntypedList | UntypedMap | TypedList(elementClass: string) | ClassTarget(className: string)

  datatype DecimalKind = DoubleKind | FloatKind

  datatype Host = Host(
    classes: map<string, ClassInfo>,
    gsonParses: (JsonTarget, string) -> bool,
    decimalParses: (DecimalKind, string) -> bool)

  /** The Java object `parseMockValue` returns; `NullValue` is `null`. */
  datatype MockValue =
    | NullValue
    | IntValue(i: int)
    | LongValue(l: int)
    | DecimalValue(kind: DecimalKind, text: string)
    | BoolValue(b: bool)
    | TextValue(s: string)
    | JsonValue(target: JsonTarget, json: string)

  /** `gson.fromJson(text, target)`; a rejected text throws, which `parseMockValue` turns into null. */
  function GsonParse(target: JsonTarget, text: string, host: Host): (r: MockValue)
    ensures r == NullValue || r == JsonValue(target, text)
  {
    if host.gsonParses(target, text) then JsonValue(target, text) else NullValue
  }

  predicate IsIntType(t: string) { t == "int" || t == "java.lang.Integer" }
  predicate IsLongType(t: string) { t == "long" || t == "java.lang.Long" }
  predicate IsDoubleType(t: string) { t == "double" || t == "java.lang.Double" }
  predicate IsFloatType(t: string) { t == "float" || t == "java.lang.Float" }
  predicate IsBooleanType(t: string) { t == "boolean" || t == "java.lang.Boolean" }

  /** The descriptors the `switch` of `parseMockValue` answers directly. */
  predicate IsScalarType(t: string) {
    IsIntType(t) || IsLongType(t) || IsDoubleType(t) || IsFloatType(t) || IsBooleanType(t)
    || t == "java.lang.String"
  }

  /** `List<X>` or `java.util.List<X>`, as the generic branch recognises it. */
  predicate IsGenericList(t: string) {
    Contains(t, "<") && Contains(t, ">")
    && (StartsWith(t, "List<") || StartsWith(t, "java.util.List<")) && EndsWith(t, ">")
  }

  /** X in `List<X>`: the text between the first '<' and the last character. */
  function ElementType(t: string): (x: string)
    requires IsGenericList(t)
    ensures '<' in t
    ensures t == t[..IndexOf(t, '<') + 1] + x + ">"
  {
    assert t[..5] == "List<" || t[..15] == "java.util.List<";
    assert '<' in t by {
      if t[..5] == "List<" { assert t[4] == '<'; } else { assert t[14] == '<'; }
    }
    var i := IndexOf(t, '<');
    assert i < |t| - 1 by {
      assert t[|t| - 1] == '>';
    }
    assert t == t[..i + 1] + t[i + 1..|t| - 1] + [t[|t| - 1]];
    t[i + 1..|t| - 1]
  }

  /** The shape the structured branch picks for text `v` and descriptor `t`. */
  function StructuredTarget(v: string, t: string, host: Host): (target: JsonTarget)
  {
    if IsGenericList(t) then
      var inner := ElementType(t);
      if inner in host.classes then TypedList(inner) else UntypedList
    else if Contains(t, "List") || t == "java.util.List" then UntypedList
    else if Contains(t, "Map") || t == "java.util.Map" then UntypedMap
    else if t in host.classes then ClassTarget(t)
    else if StartsWith(v, "[") then UntypedList
    else UntypedMap
  }

  /**
   * `Interceptor.parseMockValue`: null stays null; a null descriptor makes the
   * `switch` throw, which yields null; the scalar descriptors use their parser
   * (a failure yields null); "java.lang.String" and any text not opening with
   * '[' or '{' come back unchanged; structured text goes to Gson.
   */
  function ParseMockValue(value: JStr, rtype: JStr, host: Host): (r: MockValue)
    ensures value.None? || rtype.None? ==> r == NullValue
    ensures value.Some? && rtype == Some("java.lang.String") ==> r == TextValue(value.value)
    ensures r.JsonValue? ==>
      value.Some? && r.json == value.value && (StartsWith(value.value, "[") || StartsWith(value.value, "{"))
  {
    if value.None? || rtype.None? then NullValue
    else
      var v := value.value;
      var t := rtype.value;
      if IsIntType(t) then
        (match ParseInt(value) case Some(n) => IntValue(n) case None => NullValue)
      else if IsLongType(t) then
        (match ParseLong(value) case Some(n) => LongValue(n) case None => NullValue)
      else if IsDoubleType(t) then
        (if host.decimalParses(DoubleKind, v) then DecimalValue(DoubleKind, v) else NullValue)
      else if IsFloatType(t) then
        (if host.decimalParses(FloatKind, v) then DecimalValue(FloatKind, v) else NullValue)
      else if IsBooleanType(t) then BoolValue(ParseBoolean(value))
      else if t == "java.lang.String" then TextValue(v)
      else if StartsWith(v, "[") || StartsWith(v, "{") then GsonParse(StructuredTarget(v, t, host), v, host)
      else TextValue(v)
  }

  /** The scalar outcomes: each descriptor family yields its own kind of value or null. */
  lemma ParseScalarKinds(value: JStr, t: string, host: Host)
    requires value.Some?
    ensures var r := ParseMockValue(value, Some(t), host);
      && (IsIntType(t) ==> r == (if ParseInt(value).Some? then IntValue(ParseInt(value).value) else NullValue))
      && (IsLongType(t) ==> r == (if ParseLong(value).Some? then LongValue(ParseLong(value).value) else NullValue))
      && (IsBooleanType(t) ==> r == BoolValue(ParseBoolean(value)) && (value == Some("true") ==> r.b) && (value == Some("false") ==> !r.b))
      && (t == "java.lang.String" ==> r == TextValue(value.value))
  {
  }

  /** Text that is not structured comes back unchanged for every non-scalar descriptor. */
  lemma {:induction false} PlainTextPassesThrough(v: string, t: string, host: Host)
    requires !IsScalarType(t)
    requires !StartsWith(v, "[") && !StartsWith(v, "{")
    ensures ParseMockValue(Some(v), Some(t), host) == TextValue(v)
  {
  }

  /**
   * `List<X>`: an element type `Class.forName` cannot find degrades to an
   * untyped list, one it finds gives a list of X.
   */
  lemma {:induction false} GenericListElement(v: string, x: string, host: Host)
    requires StartsWith(v, "[") && '<' !in x
    ensures var t := "List<" + x + ">";
      && !IsScalarType(t)
      && ParseMockValue(Some(v), Some(t), host)
         == GsonParse(if x in host.classes then TypedList(x) else UntypedList, v, host)
  {
    var t := "List<" + x + ">";
    assert t[..5] == "List<";
    assert t[|t| - 1..] == ">";
    assert StartsWith(t[4..], "<");
    assert Contains(t, "<") by { ContainsAt(t, 4, "<"); }
    assert Contains(t, ">") by { ContainsAt(t, |t| - 1, ">"); }
    assert IsGenericList(t);
    var i := IndexOf(t, '<');
    assert t[4] == '<' && '<' !in t[..4];
    assert i == 4;
    var e := ElementType(t);
    assert t == t[..5] + e + ">";
    assert e == x;
    assert t != "java.lang.String" && t != "int" && t != "long" && t != "double";
  }

  /**
   * Structured text under a descriptor the generic branch does not take: a
   * descriptor naming "List" gives a list, else one naming "Map" a map, else
   * a class `Class.forName` finds gives that class; an unknown name falls
   * back on the opening bracket. Gson is only asked for a class that resolves.
   */
  lemma StructuredTextShapes(v: string, t: string, host: Host)
    requires StartsWith(v, "[") || StartsWith(v, "{")
    requires !IsScalarType(t) && !IsGenericList(t)
    ensures var r := ParseMockValue(Some(v), Some(t), host);
      && (r == NullValue || (r.JsonValue? && r.json == v))
      && (Contains(t, "List") ==> r == GsonParse(UntypedList, v, host))
      && (!Contains(t, "List") && Contains(t, "Map") ==> r == GsonParse(UntypedMap, v, host))
      && (r.JsonValue? && r.target.ClassTarget? <==>
            !Contains(t, "List") && !Contains(t, "Map") && t in host.classes && host.gsonParses(ClassTarget(t), v))
      && (r.JsonValue? && r.target.ClassTarget? ==> r.target.className == t)
      && (!Contains(t, "List") && !Contains(t, "Map") && t !in host.classes ==>
            r == GsonParse(if StartsWith(v, "[") then UntypedList else UntypedMap, v, host))
  {
    if t == "java.util.List" {
      assert Contains(t, "List") by { ContainsAt(t, 10, "List"); }
    }
    if t == "java.util.Map" {
      assert Contains(t, "Map") by { ContainsAt(t, 10, "Map"); }
    }
  }

  /** `Contains` holds when the part occurs at a known position. */
  lemma {:induction false} ContainsAt(s: string, i: nat, part: string)
    requires i <= |s| && StartsWith(s[i..], part)
    ensures Contains(s, part)
    decreases i
  {
    if i > 0 {
      assert s[1..][i - 1..] == s[i..];
      ContainsAt(s[1..], i - 1, part);
    }
  }

  /**
   * A rule whose return type was inferred from its value coerces that value as
   * intended: "int" text gives its integer, "true"/"false" their boolean,
   * other plain text itself, "[..." a list (or null when Gson rejects it), and
   * a null value null.
   */
  lemma InferredTypeCoercion(value: JStr, host: Host)
    ensures var r := ParseMockValue(value, Some(InferReturnType(value)), host);
      && (value.None? ==> r == NullValue)
      && (InferReturnType(value) == "int" ==> r == IntValue(ParseInt(value).value))
      && (InferReturnType(value) == "boolean" ==> r == BoolValue(value == Some("true")))
      && (InferReturnType(value) == "java.lang.String" ==> r == TextValue(value.value))
      && (InferReturnType(value) == "java.util.List" ==> r == GsonParse(UntypedList, value.value, host))
      && (value == Some("") ==> r == TextValue(""))
  {
    var t := InferReturnType(value);
    if t == "java.util.List" {
      assert !IsGenericList(t);
      assert Contains(t, "List") by { ContainsAt(t, 10, "List"); }
    }
  }

  /** A Java exception: its class name and message. */
  datatype Thrown = Thrown(exceptionClass: string, message: JStr)

  const RUNTIME_EXCEPTION: string := "java.lang.RuntimeException"

  /** The named class resolves, is an Exception subtype and has a working (String) constructor. */
  predicate Instantiable(exceptionType: JStr, host: Host) {
    exceptionType.Some? && exceptionType.value in host.classes
    && host.classes[exceptionType.value].isException
    && host.classes[exceptionType.value].stringConstructorWorks
  }

  /**
   * `createException`: the named exception when it can be built, otherwise a
   * RuntimeException; the message is kept either way and no resolution
   * failure escapes.
   */
  function CreateException(exceptionType: JStr, message: JStr, host: Host): (r: Thrown)
    ensures r.message == message
    ensures r.exceptionClass == RUNTIME_EXCEPTION || Instantiable(Some(r.exceptionClass), host)
    ensures Instantiable(exceptionType, host) ==> r.exceptionClass == exceptionType.value
    ensures !Instantiable(exceptionType, host) ==> r.exceptionClass == RUNTIME_EXCEPTION
  {
    if Instantiable(exceptionType, host) then Thrown(exceptionType.value, message)
    else Thrown(RUNTIME_EXCEPTION, message)
  }

  /** What an intercepted call does. */
  datatype Outcome = CallOriginal | Throw(exception: Thrown) | Return(value: MockValue)

  /** `config.getMockRule(className, methodName)` on a possibly-null config. */
  function LookupRule(rules: Option<map<string, MockRule>>, className: string, methodName: string): Option<MockRule> {
    if rules.None? then None
    else
      var key := RuleKey(Some(className), Some(methodName));
      if key in rules.value then Some(rules.value[key]) else None
  }

  /** `Interceptor.intercept` for a concrete class; `rules` is None when the config is null. */
  function InterceptConcrete(rules: Option<map<string, MockRule>>, className: string, methodName: string,
                             host: Host): (r: Outcome)
    ensures r.Throw? ==>
      var rule := LookupRule(rules, className, methodName);
      rule.Some? && rule.value.throwException && r.exception.message == rule.value.exceptionMessage
    ensures r.Return? ==>
      LookupRule(rules, className, methodName).Some? && !LookupRule(rules, className, methodName).value.throwException
  {
    var rule := LookupRule(rules, className, methodName);
    if rule.Some? && rule.value.enabled then
      if rule.value.throwException then
        Throw(CreateException(rule.value.exceptionType, rule.value.exceptionMessage, host))
      else Return(ParseMockValue(rule.value.returnValue, rule.value.returnType, host))
    else CallOriginal
  }

  /** `InterfaceInterceptor.intercept`: there is no original to call, so every miss throws. */
  function InterceptInterface(rules: Option<map<string, MockRule>>, className: string, methodName: string,
                              host: Host): (r: Outcome)
    ensures r != CallOriginal
    ensures r.Return? ==> r == InterceptConcrete(rules, className, methodName, host)
  {
    if rules.None? then Throw(Thrown("java.lang.IllegalStateException", Some("MockAgent config is null")))
    else
      var rule := LookupRule(rules, className, methodName);
      if rule.Some? && rule.value.enabled then
        if rule.value.throwException then
          Throw(CreateException(rule.value.exceptionType, rule.value.exceptionMessage, host))
        else Return(ParseMockValue(rule.value.returnValue, rule.value.returnType, host))
      else
        Throw(Thrown("java.lang.UnsupportedOperationException",
                     Some("No mock configured for interface method: " + className + "." + methodName)))
  }

  /**
   * The concrete interceptor calls the original exactly when there is no
   * config, no rule or a disabled rule; in exception mode it throws without
   * parsing; otherwise it returns the parsed value, null included.
   */
  lemma ConcreteDispatch(rules: Option<map<string, MockRule>>, c: string, m: string, host: Host)
    ensures var rule := LookupRule(rules, c, m);
      && (InterceptConcrete(rules, c, m, host) == CallOriginal <==> rules.None? || rule.None? || !rule.value.enabled)
      && (InterceptConcrete(rules, c, m, host).Throw? <==> rule.Some? && rule.value.enabled && rule.value.throwException)
      && (InterceptConcrete(rules, c, m, host).Return? ==>
            InterceptConcrete(rules, c, m, host).value == ParseMockValue(rule.value.returnValue, rule.value.returnType, host))
  {
  }

  /**
   * The interface interceptor agrees with the concrete one whenever an enabled
   * rule exists, and otherwise never returns silently: a null config is an
   * IllegalStateException, a missing or disabled rule an
   * UnsupportedOperationException naming `class.method`.
   */
  lemma InterfaceNeverFallsThrough(rules: Option<map<string, MockRule>>, c: string, m: string, host: Host)
    ensures InterceptInterface(rules, c, m, host) != CallOriginal
    ensures InterceptConcrete(rules, c, m, host) != CallOriginal ==>
      InterceptInterface(rules, c, m, host) == InterceptConcrete(rules, c, m, host)
    ensures rules.None? ==> InterceptInterface(rules, c, m, host).exception.exceptionClass == "java.lang.IllegalStateException"
    ensures rules.Some? && InterceptConcrete(rules, c, m, host) == CallOriginal ==>
      var e := InterceptInterface(rules, c, m, host).exception;
      e.exceptionClass == "java.lang.UnsupportedOperationException" && e.message.Some?
      && EndsWith(e.message.value, c + "." + m)
  {
    if rules.Some? && InterceptConcrete(rules, c, m, host) == CallOriginal {
      var msg := "No mock configured for interface method: " + c + "." + m;
      assert msg[|msg| - |c + "." + m|..] == c + "." + m;
    }
  }

  /**
   * From spec to call: an enabled value-mode spec with no declared type, put
   * into the rule map, makes the concrete interceptor return its value
   * coerced by the inferred type; an enabled exception-mode spec throws.
   */
  lemma SpecDrivesCall(spec: MockMethodConfig, rules: map<string, MockRule>, c: string, m: string, host: Host)
    requires spec.className == Some(c) && spec.methodName == Some(m) && spec.enabled
    requires RuleKey(Some(c), Some(m)) in rules && rules[RuleKey(Some(c), Some(m))] == RuleFromSpec(spec)
    ensures spec.throwException ==>
      InterceptConcrete(Some(rules), c, m, host) == Throw(CreateException(spec.exceptionType, spec.exceptionMessage, host))
    ensures !spec.throwException && IsNullOrEmpty(spec.returnType) ==>
      InterceptConcrete(Some(rules), c, m, host)
        == Return(ParseMockValue(spec.returnValue, Some(InferReturnType(spec.returnValue)), host))
  {
  }

  /** The interceptor ByteBuddy binds to a selected method. */
  datatype Strategy = InterfaceInterceptor | ConcreteInterceptor

  /** Outcome of `gson.fromJson(new FileReader(path), MockConfig.class)`. */
  datatype LoadResult = LoadThrew | LoadedNull | Loaded(config: MockConfig)

  /** The method name a rule key yields for a class, when the key starts with `className + "."`. */
  function MethodNameOf(key: string, className: string): (m: Option<string>)
    ensures m.Some? <==> StartsWith(key, className + ".")
    ensures m.Some? ==> key == className + "." + m.value
  {
    if StartsWith(key, className + ".") then
      assert key == key[..|className| + 1] + key[|className| + 1..];
      Some(key[|className| + 1..])
    else None
  }

  /**
   * The prefix test lets method names carry dots, and a key is selected for
   * every dotted prefix of it: "a.B.c.d" binds "c.d" in class "a.B" and
   * "B.c.d" in class "a".
   */
  lemma DottedKeys()
    ensures MethodNameOf("a.B.c.d", "a.B") == Some("c.d")
    ensures MethodNameOf("a.B.c.d", "a") == Some("B.c.d")
    ensures MethodNameOf("a.B.c.d", "a.Bc") == None
  {
    assert StartsWith("a.B.c.d", "a.B" + ".");
    assert StartsWith("a.B.c.d", "a" + ".");
    assert ("a.B.c.d")[3] != ("a.Bc" + ".")[3];
  }

  /** The static agent state: the loaded config and whether a transformer was installed. */
  class MockAgent {
    var mockConfig: MockConfig?
    var transformerInstalled: bool

    constructor ()
      ensures mockConfig == null && !transformerInstalled
    {
      mockConfig := null;
      transformerInstalled := false;
    }

    /**
     * `loadMockConfig`: a failed read leaves `mockConfig` as it was, a null
     * result sets it to null; a loaded config whose rule map is empty but whose
     * spec list is not gets its rules rebuilt from the specs.
     */
    method LoadMockConfig(load: LoadResult)
      modifies this`mockConfig
      modifies if load.Loaded? then {load.config} else {}
      ensures load.LoadThrew? ==> mockConfig == old(mockConfig)
      ensures load.LoadedNull? ==> mockConfig == null
      ensures load.Loaded? ==> mockConfig == load.config
      ensures load.Loaded? ==> mockConfig.mockMethods == old(load.config.mockMethods)
      ensures load.Loaded? && old(load.config.mockRules) == map[] && old(load.config.mockMethods) != [] ==>
        mockConfig.mockRules == RulesFrom(mockConfig.mockMethods)
      ensures load.Loaded? && !(old(load.config.mockRules) == map[] && old(load.config.mockMethods) != []) ==>
        mockConfig.mockRules == old(load.config.mockRules)
    {
      match load {
        case LoadThrew =>
        case LoadedNull =>
          mockConfig := null;
        case Loaded(cfg) =>
          mockConfig := cfg;
          if cfg.mockRules == map[] && cfg.mockMethods != [] {
            cfg.RebuildMockRules();
          }
      }
    }

    /**
     * `premain`: the config is loaded only for a non-empty argument, and the
     * transformer is installed exactly when a config is then present and its
     * rule map is not empty.
     */
    method Premain(agentArgs: JStr, load: LoadResult)
      modifies this
      modifies if load.Loaded? then {load.config} else {}
      ensures IsNullOrEmpty(agentArgs) ==> mockConfig == old(mockConfig)
      ensures !IsNullOrEmpty(agentArgs) && load.Loaded? ==> mockConfig == load.config
      ensures !IsNullOrEmpty(agentArgs) && load.LoadedNull? ==> mockConfig == null
      ensures !IsNullOrEmpty(agentArgs) && load.LoadThrew? ==> mockConfig == old(mockConfig)
      ensures transformerInstalled <==> old(transformerInstalled) || (mockConfig != null && mockConfig.mockRules != map[])
    {
      if !IsNullOrEmpty(agentArgs) {
        LoadMockConfig(load);
      }
      if mockConfig == null {
        return;
      }
      if mockConfig.mockRules == map[] {
        return;
      }
      transformerInstalled := true;
    }

    /**
     * The transformer for a loading class: every enabled rule whose key starts
     * with `className + "."` binds the rest of the key as a method name, to the
     * interface interceptor for an interface and the concrete one otherwise.
     */
    method Transform(className: string, isInterface: bool) returns (bindings: map<string, Strategy>)
      requires mockConfig != null
      ensures forall m :: m in bindings <==>
        className + "." + m in mockConfig.mockRules && mockConfig.mockRules[className + "." + m].enabled
      ensures forall m :: m in bindings ==>
        bindings[m] == if isInterface then InterfaceInterceptor else ConcreteInterceptor
    {
      var rules := mockConfig.mockRules;
      var strategy := if isInterface then InterfaceInterceptor else ConcreteInterceptor;
      var remaining := rules.Keys;
      bindings := map[];
      while remaining != {}
        invariant remaining <= rules.Keys
        invariant forall m :: m in bindings <==>
          className + "." + m in rules.Keys - remaining && rules[className + "." + m].enabled
        invariant forall m :: m in bindings ==> bindings[m] == strategy
        decreases remaining
      {
        var key :| key in remaining;
        var name := MethodNameOf(key, className);
        if name.Some? && rules[key].enabled {
          bindings := bindings[name.value := strategy];
        }
        forall m | className + "." + m == key
          ensures name == Some(m)
        {
          assert StartsWith(key, className + ".");
          assert key[|className| + 1..] == m;
        }
        remaining := remaining - {key};
      }
    }

    /** The concrete interceptor, reading the agent's config. */
    function Intercept(className: string, methodName: string, host: Host): (r: Outcome)
      reads this, mockConfig
      ensures mockConfig == null ==> r == CallOriginal
      ensures mockConfig != null && RuleKey(Some(className), Some(methodName)) !in mockConfig.mockRules ==>
        r == CallOriginal
    {
      InterceptConcrete(if mockConfig == null then None else Some(mockConfig.mockRules), className, methodName, host)
    }

    /** The interface interceptor, reading the agent's config. */
    function InterceptForInterface(className: string, methodName: string, host: Host): (r: Outcome)
      reads this, mockConfig
      ensures r != CallOriginal
      ensures mockConfig == null ==> r.Throw? && r.exception.exceptionClass == "java.lang.IllegalStateException"
    {
      InterceptInterface(if mockConfig == null then None else Some(mockConfig.mockRules), className, methodName, host)
    }
  }
}
