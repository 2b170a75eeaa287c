/**
 * The user-authored mock specification record: which method to mock and how.
 * Its fields are overwritten in place by setters (the editor, the tool window).
 */
module MethodSpec {
  import opened JavaText

  const DEFAULT_EXCEPTION_TYPE: string := "java.lang.RuntimeException"
  const DEFAULT_EXCEPTION_MESSAGE: string := "Mocked exception"

  class MockMethodConfig {
    var className: JStr
    var methodName: JStr
    var signature: JStr
    var returnValue: JStr
    var returnType: JStr
    var enabled: bool
    var throwException: bool
    var exceptionType: JStr
    var exceptionMessage: JStr

    /** A new spec: every string null except the exception defaults; enabled, value mode. */
    constructor ()
      ensures className.None? && methodName.None? && signature.None?
      ensures returnValue.None? && returnType.None?
      ensures enabled && !throwException
      ensures exceptionType == Some(DEFAULT_EXCEPTION_TYPE)
      ensures exceptionMessage == Some(DEFAULT_EXCEPTION_MESSAGE)
    {
      className := None;
      methodName := None;
      signature := None;
      returnValue := None;
      returnType := None;
      enabled := true;
      throwException := false;
      exceptionType := Some(DEFAULT_EXCEPTION_TYPE);
      exceptionMessage := Some(DEFAULT_EXCEPTION_MESSAGE);
    }

    // Each setter may change its own field only (the `modifies` frame says so),
    // and the field then holds the value set, which its getter returns.

    method SetClassName(v: JStr)
      modifies this`className
      ensures className == v
    {
      className := v;
    }

    method SetMethodName(v: JStr)
      modifies this`methodName
      ensures methodName == v
    {
      methodName := v;
    }

    method SetSignature(v: JStr)
      modifies this`signature
      ensures signature == v
    {
      signature := v;
    }

    method SetReturnValue(v: JStr)
      modifies this`returnValue
      ensures returnValue == v
    {
      returnValue := v;
    }

    method SetReturnType(v: JStr)
      modifies this`returnType
      ensures returnType == v
    {
      returnType := v;
    }

    method SetEnabled(v: bool)
      modifies this`enabled
      ensures enabled == v
    {
      enabled := v;
    }

    method SetThrowException(v: bool)
      modifies this`throwException
      ensures throwException == v
    {
      throwException := v;
    }

    method SetExceptionType(v: JStr)
      modifies this`exceptionType
      ensures exceptionType == v
    {
      exceptionType := v;
    }

    method SetExceptionMessage(v: JStr)
      modifies this`exceptionMessage
      ensures exceptionMessage == v
    {
      exceptionMessage := v;
    }

    /**
     * `getFullMethodName`: the class name, a dot, the method name and the
     * signature, null parts written as "null". The class name and the dot
     * come first, and the method name and signature make up the rest.
     */
    function FullMethodName(): (r: string)
      reads this
      ensures StartsWith(r, Show(className) + ".")
      ensures r[|Show(className)| + 1..] == Show(methodName) + Show(signature)
    {
      Show(className) + "." + Show(methodName) + Show(signature)
    }
  }
}
