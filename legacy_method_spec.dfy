/** The earlier spec record: no return type and no exception settings. */
module LegacyMethodSpec {
  import opened JavaText

  class MockMethodConfig {
    var className: JStr
    var methodName: JStr
    var signature: JStr
    var returnValue: JStr
    var enabled: bool

    /** A new spec: every string null, enabled. */
    constructor ()
      ensures className.None? && methodName.None? && signature.None? && returnValue.None?
      ensures enabled
    {
      className := None;
      methodName := None;
      signature := None;
      returnValue := None;
      enabled := true;
    }

    method SetClassName(v: JStr)
      modifies this`className
      ensures className == v
    {
      className := v;
    }

    method SetMethodName(v: JStr)
      modifies this`methodName
      ensures methodName == v
    {
      methodName := v;
    }

    method SetSignature(v: JStr)
      modifies this`signature
      ensures signature == v
    {
      signature := v;
    }

    method SetReturnValue(v: JStr)
      modifies this`returnValue
      ensures returnValue == v
    {
      returnValue := v;
    }

    method SetEnabled(v: bool)
      modifies this`enabled
      ensures enabled == v
    {
      enabled := v;
    }

    /** `getFullMethodName`: class name, a dot, method name and signature. */
    function FullMethodName(): (r: string)
      reads this
      ensures StartsWith(r, Show(className) + ".")
      ensures r[|Show(className)| + 1..] == Show(methodName) + Show(signature)
    {
      Show(className) + "." + Show(methodName) + Show(signature)
    }
  }
}
