/** The exception taxonomy of the bot: a base exception carrying a message, an optional
    error code and an optional original exception, and seven kinds that fix their code. */
module Exceptions {
  import opened Strings

  const ConfigErrorCode := "CONFIG_ERROR"
  const ApiErrorCode := "API_ERROR"
  const CommandErrorCode := "COMMAND_ERROR"
  const RateLimitErrorCode := "RATE_LIMIT_ERROR"
  const ValidationErrorCode := "VALIDATION_ERROR"
  const DbErrorCode := "DB_ERROR"
  const SecurityErrorCode := "SECURITY_ERROR"

  /** An optional string that Python would treat as true: present and non-empty. */
  predicate Truthy(s: Option<string>) {
    s.Some? && s.value != ""
  }

  /** One value per exception class. The wrapped original exception is opaque here and is
      represented by its text. Optional fields default to None, as the constructors do. */
  datatype CocobotException =
    | Cocobot(message: string, errorCode: Option<string> := None, originalException: Option<string> := None)
    | ConfigurationError(message: string, configKey: Option<string> := None, originalException: Option<string> := None)
    | APIError(message: string, statusCode: Option<int> := None, apiName: Option<string> := None,
               originalException: Option<string> := None)
    | CommandError(message: string, commandName: Option<string> := None, originalException: Option<string> := None)
    | RateLimitError(message: string, retryAfter: Option<int> := None, originalException: Option<string> := None)
    | ValidationError(message: string, fieldName: Option<string> := None, originalException: Option<string> := None)
    | DatabaseError(message: string, operation: Option<string> := None, originalException: Option<string> := None)
    | SecurityError(message: string, securityType: Option<string> := None, originalException: Option<string> := None)
  {
    /** The `error_code` attribute: chosen by the caller for the base class, fixed per subclass. */
    function Code(): (r: Option<string>)
      ensures !Cocobot? ==> Truthy(r)
      ensures Cocobot? ==> r == errorCode
    {
      match this
      case Cocobot(_, code, _) => code
      case ConfigurationError(_, _, _) => Some(ConfigErrorCode)
      case APIError(_, _, _, _) => Some(ApiErrorCode)
      case CommandError(_, _, _) => Some(CommandErrorCode)
      case RateLimitError(_, _, _) => Some(RateLimitErrorCode)
      case ValidationError(_, _, _) => Some(ValidationErrorCode)
      case DatabaseError(_, _, _) => Some(DbErrorCode)
      case SecurityError(_, _, _) => Some(SecurityErrorCode)
    }

    /** `str(e)`: the message, preceded by the bracketed code and a space when the code is truthy. */
    function ToString(): (r: string)
      ensures Truthy(Code()) ==>
        && |r| == |Code().value| + 3 + |message|
        && r[0] == '[' && r[1..|Code().value| + 1] == Code().value
        && r[|Code().value| + 1..|Code().value| + 3] == "] "
        && r[|Code().value| + 3..] == message
      ensures !Truthy(Code()) ==> r == message
    {
      if Truthy(Code()) then "[" + Code().value + "] " + message else message
    }
  }

  /** The value an operation returns, or the exception it raises. */
  datatype Result<T> = Ok(value: T) | Err(error: CocobotException)

  /** The message is recovered from the string form: it is what follows the tag, or the whole
      string when there is no code. */
  function MessageFromString(s: string, code: Option<string>): string {
    if Truthy(code) && |s| >= |code.value| + 3 then s[|code.value| + 3..] else s
  }

  lemma MessageRecoverable(e: CocobotException)
    ensures MessageFromString(e.ToString(), e.Code()) == e.message
  {
  }

  /** Every subclass's string form starts with its own bracketed code. */
  lemma SubclassStringStartsWithCode(e: CocobotException)
    requires !e.Cocobot?
    ensures OccursAt(e.ToString(), 0, "[" + e.Code().value + "]")
  {
    var c := e.Code().value;
    assert e.ToString()[..|c| + 2] == "[" + c + "]";
  }

  /** The codes the seven subclasses fix. */
  lemma SubclassCodes(message: string)
    ensures ConfigurationError(message).Code() == Some("CONFIG_ERROR")
    ensures APIError(message).Code() == Some("API_ERROR")
    ensures CommandError(message).Code() == Some("COMMAND_ERROR")
    ensures RateLimitError(message).Code() == Some("RATE_LIMIT_ERROR")
    ensures ValidationError(message).Code() == Some("VALIDATION_ERROR")
    ensures DatabaseError(message).Code() == Some("DB_ERROR")
    ensures SecurityError(message).Code() == Some("SECURITY_ERROR")
  {
  }

  /** Examples pinned down by the exception tests. */
  lemma StringExamplesPlain()
    ensures Cocobot("Test error message").ToString() == "Test error message"
    ensures Cocobot("Test error message", originalException := Some("Original error")).ToString()
            == "Test error message"
    ensures Cocobot("m", Some("")).ToString() == "m"
  {
  }

  lemma StringExamplesTagged()
    ensures Cocobot("Test error message", Some("TEST_ERROR")).ToString() == "[TEST_ERROR] " + "Test error message"
    ensures ConfigurationError("Configuration failed").ToString() == "[CONFIG_ERROR] " + "Configuration failed"
    ensures APIError("API request failed").ToString() == "[API_ERROR] " + "API request failed"
  {
    TaggedForm(Cocobot("Test error message", Some("TEST_ERROR")), "TEST_ERROR");
    TaggedForm(ConfigurationError("Configuration failed"), ConfigErrorCode);
    TaggedForm(APIError("API request failed"), ApiErrorCode);
  }

  lemma TaggedForm(e: CocobotException, code: string)
    requires e.Code() == Some(code) && code != ""
    ensures e.ToString() == "[" + code + "] " + e.message
  {
  }
}
