/** What the web API controllers share: the request parameters and `ReturnData`. */
module Api {
  import opened Wrappers

  /** The user-visible messages the controllers answer with (their string resources). */
  datatype Msg =
    | SourceListEmpty | DataEmpty | ConvertSourceFailed | SourceNameUrlCannotBeEmpty
    | ParameterUrlCannotBeEmpty | SourceNotFoundCheckUrl | NoDataTransmitted | FormatError
    | NoBooksAddedYet | BookUrlNull | ImageUrlEmpty | BookUrlInvalid
    | ParameterUrlEmpty | IndexParameterEmpty | NotFound | SourceNotFound
    | StackTrace(text: string)

  /** `ReturnData`: data, or an error message. */
  datatype Reply<+T> = Data(value: T) | ErrorMsg(msg: Msg)

  /** A request body: absent, unparsable JSON, or parsed. */
  datatype Body<+T> = Missing | Malformed | Parsed(value: T)

  /** `parameters[name]?.firstOrNull()`. */
  function FirstParam(params: map<string, seq<string>>, name: string): (r: Option<string>)
    ensures r.Some? <==> name in params && |params[name]| > 0
    ensures r.Some? ==> r.value == params[name][0]
  {
    if name in params && |params[name]| > 0 then Some(params[name][0]) else None
  }
}
