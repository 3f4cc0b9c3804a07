/**
 * The error record of errorObject.js: a code, a message, and the JSON text of
 * exactly those two fields, computed once when the record is made. The RPC
 * layer sends that text as the body of a 501 response.
 */
module ErrorObjects {
  import opened Wrappers
  import Json

  /** `str` is the source's `string` field (a reserved word in Dafny). */
  datatype ErrorObject = ErrorObject(errorCode: int, errorMessage: string, str: string)

  /**
   * JSON.stringify of an object whose own fields are `errorCode` then
   * `errorMessage`: the object as it stands when its `string` field is computed.
   */
  function ErrorJson(code: int, message: string): (s: string)
    ensures "{\"errorCode\":" <= s && s[|s| - 1] == '}'
  {
    "{\"errorCode\":" + Json.Number(code) + ",\"errorMessage\":" + Json.Quote(message) + "}"
  }

  /** Reads a two-field error record back from its JSON text. */
  function ParseErrorJson(s: string): Option<(int, string)> {
    match Json.StripPrefix("{\"errorCode\":", s)
    case None => None
    case Some(t) =>
      match Json.ReadNumber(t)
      case None => None
      case Some((code, u)) =>
        match Json.StripPrefix(",\"errorMessage\":\"", u)
        case None => None
        case Some(v) =>
          match Json.ReadString(v)
          case None => None
          case Some((message, w)) => if w == "}" then Some((code, message)) else None
  }

  /** The serialised record decodes to exactly the code and message it was made from. */
  lemma ParseErrorJsonOfErrorJson(code: int, message: string)
    ensures ParseErrorJson(ErrorJson(code, message)) == Some((code, message))
  {
    var pre, mid := "{\"errorCode\":", ",\"errorMessage\":\"";
    var n, e := Json.Number(code), Json.Escape(message);
    var afterMessage := e + "\"" + "}";
    var afterCode := mid + afterMessage;
    assert Json.Quote(message) == "\"" + e + "\"";
    assert ",\"errorMessage\":" + "\"" == mid;
    assert ErrorJson(code, message) == pre + (n + afterCode);
    Json.StripPrefixOf(pre, n + afterCode);
    Json.ReadNumberOfNumber(code, afterCode);
    Json.StripPrefixOf(mid, afterMessage);
    Json.ReadStringOfEscape(message, "}");
  }

  /** The constructor `new errorObject(errorCode, errorMessage)`. */
  function New(errorCode: int, errorMessage: string): (e: ErrorObject)
    ensures e.errorCode == errorCode && e.errorMessage == errorMessage
  {
    ErrorObject(errorCode, errorMessage, ErrorJson(errorCode, errorMessage))
  }

  /**
   * The `string` field, fixed when the record is made, is the JSON of exactly
   * its code and message: reading it back gives both.
   */
  lemma NewStringDecodes(errorCode: int, errorMessage: string)
    ensures ParseErrorJson(New(errorCode, errorMessage).str) == Some((errorCode, errorMessage))
  {
    ParseErrorJsonOfErrorJson(errorCode, errorMessage);
  }

  /** Two records with the same `string` text carry the same code and message. */
  lemma NewInjective(c1: int, m1: string, c2: int, m2: string)
    requires New(c1, m1).str == New(c2, m2).str
    ensures c1 == c2 && m1 == m2
  {
    NewStringDecodes(c1, m1);
    NewStringDecodes(c2, m2);
  }
}
