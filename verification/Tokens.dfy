/** Lexical categories, crates/rettp-parser/src/lexer/token.rs. */
module Tokens {
  import opened JsonValues
  import opened Domain

  datatype TokenKind =
    | CORE
    | PIPELINE
    | TEST
    | REQUEST
    | EXPECT
    | BODY
    | HEADERS
    | QUERY
    | STATUS
    | EXACT
    | Verb(verb: HttpMethod)
    | TYPE_STRING
    | TYPE_BOOLEAN
    | TYPE_INTEGER
    | TYPE_NUMBER
    | TYPE_OBJECT
    | TYPE_ARRAY
    | TRUE
    | FALSE
    | NULL
    | Identifier(name: string)
    | StringLiteral(text: string)
    | IntegerLiteral(n: I64)
    | NumberLiteral(f: Float64)
    | LEFT_BRACE
    | RIGHT_BRACE
    | LEFT_BRACKET
    | RIGHT_BRACKET
    | COLON
    | EQUAL
    | ARROW
    | COMMA
    | EOF

  /** `keyword_or_identifier`: keywords are case sensitive, and methods are written in upper case. */
  function KeywordOrIdentifier(word: string): TokenKind {
    if word == "core" then CORE
    else if word == "pipeline" then PIPELINE
    else if word == "test" then TEST
    else if word == "request" then REQUEST
    else if word == "expect" then EXPECT
    else if word == "body" then BODY
    else if word == "headers" then HEADERS
    else if word == "query" then QUERY
    else if word == "status" then STATUS
    else if word == "exact" then EXACT
    else if word == "GET" then Verb(GET)
    else if word == "POST" then Verb(POST)
    else if word == "PUT" then Verb(PUT)
    else if word == "PATCH" then Verb(PATCH)
    else if word == "DELETE" then Verb(DELETE)
    else if word == "HEAD" then Verb(HEAD)
    else if word == "OPTIONS" then Verb(OPTIONS)
    else if word == "string" then TYPE_STRING
    else if word == "boolean" then TYPE_BOOLEAN
    else if word == "integer" then TYPE_INTEGER
    else if word == "number" then TYPE_NUMBER
    else if word == "object" then TYPE_OBJECT
    else if word == "array" then TYPE_ARRAY
    else if word == "true" then TRUE
    else if word == "false" then FALSE
    else if word == "null" then NULL
    else Identifier(word)
  }
}
