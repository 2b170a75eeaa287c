/**
 * The earlier rule table: rules keyed by `className + "." + methodName` and a
 * plain spec list that is never de-duplicated and never turned into rules.
 */
module LegacyRuleStore {
  import opened JavaText
  import opened LegacyMethodSpec

  datatype MockRule = MockRule(returnValue: JStr, returnType: JStr, enabled: bool)

  /** `new MockRule()`: no value or type, enabled. */
  function NewRule(): (r: MockRule)
    ensures r.returnValue.None? && r.returnType.None? && r.enabled
  {
    MockRule(None, None, true)
  }

  /** `new MockRule(value, type)`: sets value and type only, so the rule is enabled. */
  function ValueRule(value: JStr, rtype: JStr): (r: MockRule)
    ensures r == NewRule().(returnValue := value, returnType := rtype)
  {
    MockRule(value, rtype, true)
  }

  function RuleKey(className: JStr, methodName: JStr): string {
    Show(className) + "." + Show(methodName)
  }

  /**
   * Whether the `removeMockMethod` filter throws a NullPointerException on
   * spec `m`: `m.getClassName().equals(..)` on a null class name, or, once the
   * class matches, `m.getMethodName().equals(..)` on a null method name.
   */
  predicate FilterThrows(m: MockMethodConfig, className: JStr, methodName: JStr)
    reads m
  {
    m.className.None? || (m.className == className && m.methodName.None?)
  }

  /** The filter's answer when it does not throw: same class and same method. */
  predicate FilterMatches(m: MockMethodConfig, className: JStr, methodName: JStr)
    reads m
  {
    m.className.Some? && m.className == className && m.methodName.Some? && m.methodName == methodName
  }

  /** Some spec of `ms` makes the filter throw. */
  function AnyThrows(ms: seq<MockMethodConfig>, className: JStr, methodName: JStr): (b: bool)
    reads ms
    ensures b <==> exists i :: 0 <= i < |ms| && FilterThrows(ms[i], className, methodName)
  {
    if ms == [] then false
    else FilterThrows(ms[|ms| - 1], className, methodName) || AnyThrows(ms[..|ms| - 1], className, methodName)
  }

  /** The specs of `ms` the filter does not select, in order. */
  function Unmatched(ms: seq<MockMethodConfig>, className: JStr, methodName: JStr): (r: seq<MockMethodConfig>)
    reads ms
    ensures |r| <= |ms|
  {
    if ms == [] then []
    else
      var last := ms[|ms| - 1];
      Unmatched(ms[..|ms| - 1], className, methodName)
        + (if FilterMatches(last, className, methodName) then [] else [last])
  }

  /** The removal keeps the order: filtering a list is filtering its two halves one after the other. */
  lemma {:induction false} UnmatchedAppend(a: seq<MockMethodConfig>, b: seq<MockMethodConfig>,
                                           className: JStr, methodName: JStr)
    ensures Unmatched(a + b, className, methodName) == Unmatched(a, className, methodName) + Unmatched(b, className, methodName)
  {
    if b == [] {
      assert a + b == a;
    } else {
      var init := b[..|b| - 1];
      assert (a + b)[..|a + b| - 1] == a + init;
      assert (a + b)[|a + b| - 1] == b[|b| - 1];
      UnmatchedAppend(a, init, className, methodName);
    }
  }

  /** The removal keeps exactly the specs the filter does not select. */
  lemma {:induction false} UnmatchedMembers(ms: seq<MockMethodConfig>, className: JStr, methodName: JStr)
    ensures forall m :: m in Unmatched(ms, className, methodName) ==> m in ms && !FilterMatches(m, className, methodName)
    ensures forall m :: m in ms && !FilterMatches(m, className, methodName) ==> m in Unmatched(ms, className, methodName)
  {
    if ms != [] {
      var init := ms[..|ms| - 1];
      UnmatchedMembers(init, className, methodName);
      assert ms == init + [ms[|ms| - 1]];
    }
  }

  class MockConfig {
    var mockRules: map<string, MockRule>
    var mockMethods: seq<MockMethodConfig>

    constructor ()
      ensures mockRules == map[] && mockMethods == []
    {
      mockRules := map[];
      mockMethods := [];
    }

    /** `getMockRule`: the rule under `className + "." + methodName`, if any. */
    function GetMockRule(className: JStr, methodName: JStr): (r: Option<MockRule>)
      reads this
      ensures r.Some? <==> Show(className) + "." + Show(methodName) in mockRules
      ensures className.None? ==> (r.Some? <==> "null." + Show(methodName) in mockRules)
      ensures r.Some? ==> r.value in mockRules.Values
    {
      var key := RuleKey(className, methodName);
      assert className.None? ==> key == "null." + Show(methodName);
      if key in mockRules then Some(mockRules[key]) else None
    }

    /** `addMockRule`: a put that overwrites under the key. */
    method AddMockRule(className: JStr, methodName: JStr, rule: MockRule)
      modifies this`mockRules
      ensures mockRules == old(mockRules)[RuleKey(className, methodName) := rule]
      ensures GetMockRule(className, methodName) == Some(rule)
    {
      mockRules := mockRules[RuleKey(className, methodName) := rule];
    }

    /** `addMockMethod`: appends, duplicates included; the rules are not touched. */
    method AddMockMethod(spec: MockMethodConfig)
      modifies this`mockMethods
      ensures mockMethods == old(mockMethods) + [spec]
    {
      mockMethods := mockMethods + [spec];
    }

    /**
     * `removeMockMethod(className, methodName)`: drops every spec of that class
     * and method, whatever its signature; the rules are not touched. The filter
     * runs over every spec before anything is removed, so when it throws on a
     * spec with a null name (`threw`) the list is left as it was.
     */
    method RemoveMockMethod(className: JStr, methodName: JStr) returns (threw: bool)
      modifies this`mockMethods
      ensures threw <==> AnyThrows(old(mockMethods), className, methodName)
      ensures threw ==> mockMethods == old(mockMethods)
      ensures !threw ==> mockMethods == Unmatched(old(mockMethods), className, methodName)
    {
      var ms := mockMethods;
      var kept: seq<MockMethodConfig> := [];
      var i := 0;
      while i < |ms|
        invariant 0 <= i <= |ms|
        invariant !AnyThrows(ms[..i], className, methodName)
        invariant kept == Unmatched(ms[..i], className, methodName)
      {
        assert ms[..i + 1][..i] == ms[..i];
        if FilterThrows(ms[i], className, methodName) {
          assert AnyThrows(ms[..i + 1], className, methodName);
          assert ms[..i + 1] + ms[i + 1..] == ms;
          return true;
        }
        if !FilterMatches(ms[i], className, methodName) {
          kept := kept + [ms[i]];
        }
        i := i + 1;
      }
      assert ms[..i] == ms;
      mockMethods := kept;
      assert Unmatched(ms, className, methodName) == kept;
      threw := false;
    }

    /** `clearAll`: both collections empty. */
    method ClearAll()
      modifies this`mockMethods, this`mockRules
      ensures mockRules == map[] && mockMethods == []
    {
      mockRules := map[];
      mockMethods := [];
    }
  }
}
