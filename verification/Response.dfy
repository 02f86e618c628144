/** Backend-neutral HTTP responses, crates/rettp-http/src/model.rs:157-309. */
module Response {
  import opened Wrappers
  import opened IndexMap
  import opened JsonValues
  import Text

  /** Raw bytes: either the UTF-8 encoding of a text, or bytes no text encodes to. */
  datatype Bytes = Utf8(text: string) | NotUtf8(raw: seq<bv8>)

  datatype ResponseBody =
    | NoBody
    | JsonBody(raw: Bytes, value: Json)
    | TextBody(raw: Bytes)
    | BinaryBody(raw: Bytes)
  {
    function RawBytes(): Bytes {
      if NoBody? then Utf8("") else raw
    }
  }

  /** Header names are stored in lower case; `Get` lowers the name it is given. */
  datatype HttpResponse = HttpResponse(status: int, headers: Entries<seq<Bytes>>, body: ResponseBody) {
    function Header(name: string): Option<seq<Bytes>> {
      Find(headers, Text.Lower(name))
    }
  }
}
