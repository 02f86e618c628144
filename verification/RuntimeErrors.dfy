/** Failures while resolving variables or staging captures, crates/rettp-runtime/src/error.rs:6-123. */
module RuntimeErrors {

  datatype ResolutionLocation =
    | RequestPath
    | RequestHeader
    | QueryParameter
    | JsonRequestBody
    | TextRequestBody
    | FormField
    | ExpectedHeader
    | ExpectedText
    | ExpectedJson

  datatype RuntimeError =
    | EmptyPlaceholder(location: ResolutionLocation)
    | UnterminatedPlaceholder(location: ResolutionLocation)
    | InvalidVariableName(name: string, location: ResolutionLocation)
    | UndefinedVariable(name: string, location: ResolutionLocation)
    | UnsupportedInterpolationType(name: string, valueType: string, location: ResolutionLocation)
    | InterpolatedValueTooLarge(location: ResolutionLocation, limitBytes: nat)
    | NestingLimitExceeded(limit: nat)
    | NonFiniteNumber
    | InvalidCaptureBody
    | MissingCaptureField(path: seq<string>)
    | InvalidNestedCaptureField(path: seq<string>)
    | DuplicateVariable(name: string)
}
