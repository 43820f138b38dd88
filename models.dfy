/** The request record of the comparison form and its validation. */
module Models {
  import opened Wrappers
  import opened Errors
  import opened Collaborators
  import Compare

  /** The method names a request may carry. */
  const ValidMethods: seq<string> := ["orb", "hist", "phash"]

  /** The method a request uses when it names none. */
  const DefaultMethod: string := "orb"

  /**
   * The method validator: a name is accepted exactly when it is one of the
   * three, and is then returned unchanged; any other name is an
   * "Invalid method" error.
   */
  function ValidateMethod(value: string): (r: Result<string, Error>)
    ensures r.Success? <==> value == "orb" || value == "hist" || value == "phash"
    ensures r.Success? ==> r.value == value
    ensures r.Failure? ==> r.error == InvalidMethod(value) && "Invalid method" <= r.error.Message()
  {
    if value in ValidMethods then Success(value) else Failure(InvalidMethod(value))
  }

  /** The validator accepts exactly the names the dispatcher has a strategy for. */
  lemma ValidatorAgreesWithRegistry(value: string)
    ensures ValidateMethod(value).Success? <==> value in Compare.Registry
  {
    assert "orb" in Compare.Registry && "hist" in Compare.Registry && "phash" in Compare.Registry;
  }

  /** A validated request: both URLs in their canonical text, and the method. */
  datatype CompareRequest = CompareRequest(input1: string, input2: string, methodName: string)

  /**
   * Builds a request from raw fields. It succeeds exactly when both URLs
   * parse and the method validates, and then holds the parsed URLs and the
   * method unchanged; otherwise the validation error names every failing
   * field. The method defaults to "orb".
   */
  function NewCompareRequest(parseUrl: UrlParser, input1: string, input2: string, methodName: string := DefaultMethod)
    : (r: Result<CompareRequest, Error>)
    ensures r.Success? <==> parseUrl(input1).Some? && parseUrl(input2).Some? && ValidateMethod(methodName).Success?
    ensures r.Success? ==>
      r.value.input1 == parseUrl(input1).value &&
      r.value.input2 == parseUrl(input2).value &&
      r.value.methodName == methodName
    ensures r.Failure? ==>
      r.error.ValidationError? &&
      ("input1" in r.error.fields <==> parseUrl(input1).None?) &&
      ("input2" in r.error.fields <==> parseUrl(input2).None?) &&
      ("method" in r.error.fields <==> ValidateMethod(methodName).Failure?)
  {
    var url1 := parseUrl(input1);
    var url2 := parseUrl(input2);
    var checkedMethod := ValidateMethod(methodName);
    var failing :=
      (if url1.None? then ["input1"] else []) +
      (if url2.None? then ["input2"] else []) +
      (if checkedMethod.Failure? then ["method"] else []);
    if failing != [] then Failure(ValidationError(failing))
    else Success(CompareRequest(url1.value, url2.value, checkedMethod.value))
  }

  /** A request that omits the method uses "orb". */
  lemma MethodDefaultsToOrb(parseUrl: UrlParser, input1: string, input2: string)
    requires parseUrl(input1).Some? && parseUrl(input2).Some?
    ensures NewCompareRequest(parseUrl, input1, input2) == Success(CompareRequest(parseUrl(input1).value, parseUrl(input2).value, "orb"))
  {
  }
}
