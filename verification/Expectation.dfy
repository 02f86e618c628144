/** Fully resolved expectations, crates/rettp-assertion/src/expectation.rs:14-150. */
module Expectation {
  import opened Wrappers
  import opened IndexMap
  import opened JsonValues

  datatype ExpectedType = TString | TBoolean | TInteger | TNumber | TObject | TArray | TNull

  datatype MatchMode = MatchExact | MatchPartial

  datatype ResolvedHeader = HeaderExists | HeaderExact(text: string) | HeaderContains(text: string)

  datatype ResolvedText = TextExact(text: string) | TextContains(text: string)

  datatype ResolvedObject = ResolvedObject(mode: MatchMode, fields: Entries<ResolvedField>)

  datatype ResolvedField = ResolvedField(
    fieldName: string,
    expectedType: ExpectedType,
    expectedValue: Option<Json>,
    nested: Option<ResolvedObject>,
    capture: Option<string>)

  datatype ResolvedBody = ExpectJson(shape: ResolvedObject) | ExpectText(text: ResolvedText) | ExpectEmpty

  datatype ResolvedExpectation = ResolvedExpectation(
    status: Option<int>,
    headers: Entries<ResolvedHeader>,
    body: Option<ResolvedBody>)
}
