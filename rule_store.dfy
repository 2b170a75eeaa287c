/**
 * The rule table the agent reads: a map from `className + "." + methodName`
 * to a MockRule, next to the list of user-authored specs it is derived from.
 */
module RuleStore {
  import opened JavaText
  import opened MethodSpec

  /** What the agent does for one mocked method. */
  datatype MockRule = MockRule(
    returnValue: JStr,
    returnType: JStr,
    enabled: bool,
    throwException: bool,
    exceptionType: JStr,
    exceptionMessage: JStr)

  /** `new MockRule()`: no value, enabled, value mode, the default exception. */
  function NewRule(): (r: MockRule)
    ensures r.returnValue.None? && r.returnType.None?
    ensures r.enabled && !r.throwException
    ensures r.exceptionType == Some(DEFAULT_EXCEPTION_TYPE)
    ensures r.exceptionMessage == Some(DEFAULT_EXCEPTION_MESSAGE)
  {
    MockRule(None, None, true, false, Some(DEFAULT_EXCEPTION_TYPE), Some(DEFAULT_EXCEPTION_MESSAGE))
  }

  /** `new MockRule(value, type)`: the defaults with value and type set. */
  function ValueRule(value: JStr, rtype: JStr): (r: MockRule)
    ensures r == NewRule().(returnValue := value, returnType := rtype)
  {
    MockRule(value, rtype, true, false, Some(DEFAULT_EXCEPTION_TYPE), Some(DEFAULT_EXCEPTION_MESSAGE))
  }

  /** `new MockRule(value, type, throwException, exceptionType, exceptionMessage)`; still enabled. */
  function FullRule(value: JStr, rtype: JStr, throwEx: bool, exType: JStr, exMsg: JStr): (r: MockRule)
    ensures r == ValueRule(value, rtype).(throwException := throwEx, exceptionType := exType, exceptionMessage := exMsg)
  {
    MockRule(value, rtype, true, throwEx, exType, exMsg)
  }

  /**
   * `inferReturnType`: the type guessed for a spec that names none. Each of
   * the five answers is given for exactly the values described: null or empty;
   * text opening with '['; the two boolean words; text `Integer.parseInt`
   * accepts; anything else.
   */
  function InferReturnType(value: JStr): (r: string)
    ensures r == "java.lang.Object" <==> IsNullOrEmpty(value)
    ensures r == "java.util.List" <==> value.Some? && value.value != [] && value.value[0] == '['
    ensures r == "boolean" <==> value == Some("true") || value == Some("false")
    ensures r == "int" <==> ParseInt(value).Some? && value != Some("") && value.value[0] != '['
    ensures r == "java.lang.String" <==>
      !IsNullOrEmpty(value) && value.value[0] != '[' && value.value != "true" && value.value != "false"
      && ParseInt(value).None?
  {
    if IsNullOrEmpty(value) then "java.lang.Object"
    else if value.value == "[]" || StartsWith(value.value, "[") then "java.util.List"
    else if value.value == "true" || value.value == "false" then "boolean"
    else if ParseInt(value).Some? then "int"
    else "java.lang.String"
  }

  /** What `Integer.parseInt` accepts never opens with '[' and is never a boolean word. */
  lemma {:induction false} ParsedIntShape(value: JStr)
    requires ParseInt(value).Some?
    ensures value.Some? && value.value != [] && value.value[0] != '['
    ensures value.value != "true" && value.value != "false"
  {
    var t := value.value;
    var digits := if t[0] == '-' || t[0] == '+' then t[1..] else t;
    assert IsDigit(digits[0]);
  }

  /** The rule-map key: `className + "." + methodName`. */
  function RuleKey(className: JStr, methodName: JStr): string {
    Show(className) + "." + Show(methodName)
  }

  /** The spec identity: `className + "." + methodName + signature`. */
  function MethodKey(className: JStr, methodName: JStr, signature: JStr): string {
    RuleKey(className, methodName) + Show(signature)
  }

  function SpecKey(m: MockMethodConfig): string
    reads m
  {
    MethodKey(m.className, m.methodName, m.signature)
  }

  /** The identity the store de-duplicates by is the spec's own full method name. */
  lemma SpecKeyIsFullMethodName(m: MockMethodConfig)
    ensures SpecKey(m) == m.FullMethodName()
    ensures StartsWith(SpecKey(m), RuleKey(m.className, m.methodName))
  {
  }

  /**
   * Two different (class, method) pairs can share a rule key when a name
   * holds a dot: ("a.b", "c") and ("a", "b.c") both give "a.b.c".
   */
  lemma RuleKeyCollision()
    ensures RuleKey(Some("a.b"), Some("c")) == RuleKey(Some("a"), Some("b.c"))
  {
  }

  /** The return type a rule gets from a spec: its own, or the inferred one when null or empty. */
  function EffectiveReturnType(m: MockMethodConfig): (r: JStr)
    reads m
    ensures !IsNullOrEmpty(r)
    ensures !IsNullOrEmpty(m.returnType) ==> r == m.returnType
    ensures IsNullOrEmpty(m.returnType) ==> r == Some(InferReturnType(m.returnValue))
  {
    if IsNullOrEmpty(m.returnType) then Some(InferReturnType(m.returnValue)) else m.returnType
  }

  /**
   * The rule `addMockMethod` and `rebuildMockRules` build for a spec: it copies
   * value, mode, exception type and message and the enabled flag, and always
   * carries a non-empty return type.
   */
  function RuleFromSpec(m: MockMethodConfig): (r: MockRule)
    reads m
    ensures r.returnValue == m.returnValue && r.enabled == m.enabled
    ensures r.throwException == m.throwException
    ensures r.exceptionType == m.exceptionType && r.exceptionMessage == m.exceptionMessage
    ensures !IsNullOrEmpty(r.returnType)
  {
    FullRule(m.returnValue, EffectiveReturnType(m), m.throwException, m.exceptionType, m.exceptionMessage)
      .(enabled := m.enabled)
  }

  /** `removeIf` on the spec identity: the specs of `ms` whose key is not `key`, in order. */
  function WithoutKey(ms: seq<MockMethodConfig>, key: string): (r: seq<MockMethodConfig>)
    reads ms
    ensures |r| <= |ms|
  {
    if ms == [] then []
    else
      var last := ms[|ms| - 1];
      WithoutKey(ms[..|ms| - 1], key) + (if SpecKey(last) == key then [] else [last])
  }

  /** `removeIf` keeps exactly the specs whose identity differs from `key`. */
  lemma {:induction false} WithoutKeyMembers(ms: seq<MockMethodConfig>, key: string)
    ensures forall m :: m in WithoutKey(ms, key) ==> m in ms && SpecKey(m) != key
    ensures forall m :: m in ms && SpecKey(m) != key ==> m in WithoutKey(ms, key)
  {
    if ms != [] {
      var init := ms[..|ms| - 1];
      WithoutKeyMembers(init, key);
      assert ms == init + [ms[|ms| - 1]];
    }
  }

  /** `removeIf` keeps the order: filtering a list is filtering its two halves one after the other. */
  lemma {:induction false} WithoutKeyAppend(a: seq<MockMethodConfig>, b: seq<MockMethodConfig>, key: string)
    ensures WithoutKey(a + b, key) == WithoutKey(a, key) + WithoutKey(b, key)
  {
    if b == [] {
      assert a + b == a;
    } else {
      var init := b[..|b| - 1];
      assert (a + b)[..|a + b| - 1] == a + init;
      assert (a + b)[|a + b| - 1] == b[|b| - 1];
      WithoutKeyAppend(a, init, key);
    }
  }

  /** Some spec in `ms` has identity `key`. */
  function AnyHasKey(ms: seq<MockMethodConfig>, key: string): (b: bool)
    reads ms
    ensures b <==> exists i :: 0 <= i < |ms| && SpecKey(ms[i]) == key
  {
    if ms == [] then false
    else SpecKey(ms[|ms| - 1]) == key || AnyHasKey(ms[..|ms| - 1], key)
  }

  /** The rule key a spec's rule is stored under. */
  function SpecRuleKey(m: MockMethodConfig): string
    reads m
  {
    RuleKey(m.className, m.methodName)
  }

  /** The rule map `rebuildMockRules` derives: one put per spec, in list order. */
  function RulesFrom(ms: seq<MockMethodConfig>): (rules: map<string, MockRule>)
    reads ms
  {
    if ms == [] then map[]
    else
      var last := ms[|ms| - 1];
      RulesFrom(ms[..|ms| - 1])[SpecRuleKey(last) := RuleFromSpec(last)]
  }

  /** Every spec's rule key is a key of the rebuilt map. */
  lemma {:induction false} RulesFromCoversSpecs(ms: seq<MockMethodConfig>, i: nat)
    requires i < |ms|
    ensures SpecRuleKey(ms[i]) in RulesFrom(ms)
  {
    if i < |ms| - 1 {
      var init := ms[..|ms| - 1];
      assert init[i] == ms[i];
      RulesFromCoversSpecs(init, i);
    }
  }

  /** Every key of the rebuilt map is the rule key of some spec. */
  lemma {:induction false} RulesFromOnlySpecKeys(ms: seq<MockMethodConfig>, k: string)
    requires k in RulesFrom(ms)
    ensures exists i :: 0 <= i < |ms| && SpecRuleKey(ms[i]) == k
  {
    var init := ms[..|ms| - 1];
    if k != SpecRuleKey(ms[|ms| - 1]) {
      RulesFromOnlySpecKeys(init, k);
      var i :| 0 <= i < |init| && SpecRuleKey(init[i]) == k;
      assert ms[i] == init[i];
    }
  }

  /**
   * The last spec wins: the rebuilt rule for a key comes from the last spec
   * carrying that key, whatever earlier specs (overloads included) said.
   */
  lemma {:induction false} RulesFromLastWins(ms: seq<MockMethodConfig>, i: nat)
    requires i < |ms|
    requires forall j :: i < j < |ms| ==> SpecRuleKey(ms[j]) != SpecRuleKey(ms[i])
    ensures SpecRuleKey(ms[i]) in RulesFrom(ms)
    ensures RulesFrom(ms)[SpecRuleKey(ms[i])] == RuleFromSpec(ms[i])
  {
    if i < |ms| - 1 {
      var init := ms[..|ms| - 1];
      assert init[i] == ms[i];
      forall j | i < j < |init|
        ensures SpecRuleKey(init[j]) != SpecRuleKey(init[i])
      {
        assert init[j] == ms[j];
      }
      RulesFromLastWins(init, i);
    }
  }

  /** A spec of the given class and method whose signature does not read as "". */
  predicate SameMethodOtherSignature(m: MockMethodConfig, className: JStr, methodName: JStr)
    reads m
  {
    m.className == className && m.methodName == methodName && Show(m.signature) != ""
  }

  /** No spec of `ms` but the last carries identity `key`. */
  predicate NoEarlierKey(ms: seq<MockMethodConfig>, key: string)
    reads ms
  {
    forall i :: 0 <= i < |ms| - 1 ==> SpecKey(ms[i]) != key
  }

  /** After dropping `key` and appending `x`, only the appended spec can carry `key`. */
  lemma AppendAfterRemove(ms: seq<MockMethodConfig>, key: string, x: MockMethodConfig)
    ensures NoEarlierKey(WithoutKey(ms, key) + [x], key)
  {
    var r := WithoutKey(ms, key);
    WithoutKeyMembers(ms, key);
    forall i | 0 <= i < |r + [x]| - 1
      ensures SpecKey((r + [x])[i]) != key
    {
      assert (r + [x])[i] == r[i] && r[i] in r;
    }
  }

  /** The `removeIf` both `addMockMethod` and `removeMockMethod` perform, as a scan keeping the other specs. */
  method KeptSpecs(ms: seq<MockMethodConfig>, key: string) returns (kept: seq<MockMethodConfig>)
    ensures kept == WithoutKey(ms, key)
  {
    kept := [];
    var i := 0;
    while i < |ms|
      invariant 0 <= i <= |ms|
      invariant kept == WithoutKey(ms[..i], key)
    {
      assert ms[..i + 1][..i] == ms[..i];
      if SpecKey(ms[i]) != key {
        kept := kept + [ms[i]];
      }
      i := i + 1;
    }
    assert ms[..i] == ms;
  }

  /** The store: the rule map and the spec list, both updated in place. */
  class MockConfig {
    var mockRules: map<string, MockRule>
    var mockMethods: seq<MockMethodConfig>

    constructor ()
      ensures mockRules == map[] && mockMethods == []
    {
      mockRules := map[];
      mockMethods := [];
    }

    /** `getMockRule`: the rule under `className + "." + methodName`, if any. */
    function GetMockRule(className: JStr, methodName: JStr): (r: Option<MockRule>)
      reads this
      ensures r.Some? <==> Show(className) + "." + Show(methodName) in mockRules
      ensures className.None? ==> (r.Some? <==> "null." + Show(methodName) in mockRules)
      ensures r.Some? ==> r.value in mockRules.Values
    {
      var key := RuleKey(className, methodName);
      assert className.None? ==> key == "null." + Show(methodName);
      if key in mockRules then Some(mockRules[key]) else None
    }

    /** `addMockRule`: a put that overwrites the key's rule and leaves every other key alone. */
    method AddMockRule(className: JStr, methodName: JStr, rule: MockRule)
      modifies this`mockRules
      ensures mockRules == old(mockRules)[RuleKey(className, methodName) := rule]
      ensures GetMockRule(className, methodName) == Some(rule)
      ensures forall k :: k in old(mockRules) && k != RuleKey(className, methodName) ==>
        k in mockRules && mockRules[k] == old(mockRules)[k]
    {
      mockRules := mockRules[RuleKey(className, methodName) := rule];
    }

    /**
     * `addMockMethod`: earlier specs with the same identity are dropped, the
     * new one is appended last, so it is then the only spec with that
     * identity; and its rule is put under its class and method.
     */
    method AddMockMethod(spec: MockMethodConfig)
      modifies this`mockMethods, this`mockRules
      ensures mockMethods == WithoutKey(old(mockMethods), SpecKey(spec)) + [spec]
      ensures NoEarlierKey(mockMethods, SpecKey(spec))
      ensures mockRules == old(mockRules)[RuleKey(spec.className, spec.methodName) := RuleFromSpec(spec)]
      ensures GetMockRule(spec.className, spec.methodName) == Some(RuleFromSpec(spec))
    {
      var key := SpecKey(spec);
      var kept := KeptSpecs(mockMethods, key);
      AppendAfterRemove(mockMethods, key, spec);
      ghost var before := mockMethods;
      mockRules := mockRules[RuleKey(spec.className, spec.methodName) := RuleFromSpec(spec)];
      mockMethods := kept + [spec];
      assert SpecKey(spec) == key;
      assert WithoutKey(before, key) == kept;
    }

    /** `rebuildMockRules`: clear the map, then one put per spec in list order. */
    method RebuildMockRules()
      modifies this`mockRules
      ensures mockRules == RulesFrom(mockMethods)
    {
      mockRules := map[];
      var i := 0;
      while i < |mockMethods|
        invariant 0 <= i <= |mockMethods|
        invariant mockRules == RulesFrom(mockMethods[..i])
      {
        var m := mockMethods[i];
        assert mockMethods[..i + 1][..i] == mockMethods[..i];
        AddMockRule(m.className, m.methodName, RuleFromSpec(m));
        i := i + 1;
      }
      assert mockMethods[..i] == mockMethods;
    }

    /**
     * `removeMockMethod(className, methodName, signature)`: drops the specs
     * with that identity and always deletes the rule `className.methodName`.
     */
    method RemoveMockMethod(className: JStr, methodName: JStr, signature: JStr)
      modifies this`mockMethods, this`mockRules
      ensures mockMethods == WithoutKey(old(mockMethods), MethodKey(className, methodName, signature))
      ensures mockRules == old(mockRules) - {RuleKey(className, methodName)}
      ensures GetMockRule(className, methodName).None?
    {
      var key := MethodKey(className, methodName, signature);
      var kept := KeptSpecs(mockMethods, key);
      ghost var before := mockMethods;
      mockRules := mockRules - {RuleKey(className, methodName)};
      mockMethods := kept;
      assert WithoutKey(before, key) == kept;
    }

    /**
     * `removeMockMethod(className, methodName)` passes the signature "": the
     * rule goes, but a spec of that method whose signature is not empty
     * (a null one reads "null") stays in the list.
     */
    method RemoveMockMethodNoSignature(className: JStr, methodName: JStr)
      modifies this`mockMethods, this`mockRules
      ensures mockMethods == WithoutKey(old(mockMethods), MethodKey(className, methodName, Some("")))
      ensures mockRules == old(mockRules) - {RuleKey(className, methodName)}
      ensures forall m :: SameMethodOtherSignature(m, className, methodName) && m in old(mockMethods) ==>
        m in mockMethods
    {
      WithoutKeyMembers(mockMethods, MethodKey(className, methodName, Some("")));
      RemoveMockMethod(className, methodName, Some(""));
      forall m | SameMethodOtherSignature(m, className, methodName) && m in old(mockMethods)
        ensures m in mockMethods
      {
        assert |SpecKey(m)| > |MethodKey(className, methodName, Some(""))|;
      }
    }

    /** `hasMockMethod`: some spec has exactly this identity. */
    function HasMockMethod(className: JStr, methodName: JStr, signature: JStr): (b: bool)
      reads this, mockMethods
      ensures b <==> exists i ::
        0 <= i < |mockMethods| && SpecKey(mockMethods[i]) == MethodKey(className, methodName, signature)
    {
      AnyHasKey(mockMethods, MethodKey(className, methodName, signature))
    }

    /** `clearAll`: both collections empty. */
    method ClearAll()
      modifies this`mockMethods, this`mockRules
      ensures mockRules == map[] && mockMethods == []
    {
      mockRules := map[];
      mockMethods := [];
    }
  }

  /** A spec for `test.Service.testMethod` with a String return type and the given mode. */
  method NewServiceSpec(value: string, throwEx: bool, exType: string, exMsg: string)
    returns (spec: MockMethodConfig)
    ensures fresh(spec)
    ensures spec.className == Some("test.Service") && spec.methodName == Some("testMethod")
    ensures spec.signature.None? && spec.enabled
    ensures spec.returnValue == Some(value) && spec.returnType == Some("java.lang.String")
    ensures spec.throwException == throwEx
    ensures spec.exceptionType == Some(exType) && spec.exceptionMessage == Some(exMsg)
  {
    spec := new MockMethodConfig();
    spec.SetClassName(Some("test.Service"));
    spec.SetMethodName(Some("testMethod"));
    spec.SetReturnValue(Some(value));
    spec.SetReturnType(Some("java.lang.String"));
    spec.SetEnabled(true);
    spec.SetThrowException(throwEx);
    spec.SetExceptionType(Some(exType));
    spec.SetExceptionMessage(Some(exMsg));
  }

  /**
   * Re-adding a spec for the same method switches the stored rule between
   * exception and value mode at once: exception, then value, then exception
   * with new settings.
   */
  method UpdateSameMethodMultipleTimes() returns (rule1: Option<MockRule>, rule2: Option<MockRule>,
                                                  rule3: Option<MockRule>)
    ensures rule1.Some? && rule1.value.throwException
    ensures rule1.value.exceptionMessage == Some("Exception 1")
    ensures rule2.Some? && !rule2.value.throwException && rule2.value.returnValue == Some("value2")
    ensures rule3.Some? && rule3.value.throwException
    ensures rule3.value.exceptionType == Some("java.lang.RuntimeException")
    ensures rule3.value.exceptionMessage == Some("Exception 2")
  {
    var config := new MockConfig();
    var first := NewServiceSpec("value1", true, "java.lang.IllegalArgumentException", "Exception 1");
    config.AddMockMethod(first);
    rule1 := config.GetMockRule(Some("test.Service"), Some("testMethod"));
    assert rule1 == Some(RuleFromSpec(first));
    assert rule1.value.throwException && rule1.value.exceptionMessage == Some("Exception 1");
    var second := NewServiceSpec("value2", false, DEFAULT_EXCEPTION_TYPE, DEFAULT_EXCEPTION_MESSAGE);
    config.AddMockMethod(second);
    rule2 := config.GetMockRule(Some("test.Service"), Some("testMethod"));
    assert rule2 == Some(RuleFromSpec(second));
    assert !rule2.value.throwException && rule2.value.returnValue == Some("value2");
    var third := NewServiceSpec("value3", true, "java.lang.RuntimeException", "Exception 2");
    config.AddMockMethod(third);
    rule3 := config.GetMockRule(Some("test.Service"), Some("testMethod"));
  }
}
